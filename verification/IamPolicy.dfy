/**
 IAM policies in normal form, and the algebra of granting and removing one
 member: which of the two undoes the other, exactly.
 */
module IamPolicy {
  import opened Option
  import opened Sorting

  datatype Grant = Grant(role: string, members: seq<string>)

  datatype Policy = Policy(version: int, bindings: seq<Grant>)

  function Text(s: string): string {
    s
  }

  function RoleOf(g: Grant): string {
    g.role
  }

  function SortMembers(members: seq<string>): seq<string> {
    Sort(members, Text)
  }

  // ---- Normal form

  ghost predicate DistinctRoles(s: seq<Grant>) {
    forall i, j :: 0 <= i < j < |s| ==> s[i].role != s[j].role
  }

  /** One binding for each role, in role order, every one with members, in order. */
  ghost predicate Normal(p: Policy) {
    && p.version in {1, 3}
    && Sorted(p.bindings, RoleOf) && DistinctRoles(p.bindings)
    && forall i :: 0 <= i < |p.bindings| ==>
         p.bindings[i].members != [] && Sorted(p.bindings[i].members, Text)
  }

  function Roles(s: seq<Grant>): set<string> {
    set i | 0 <= i < |s| :: s[i].role
  }

  function SortEach(s: seq<Grant>): seq<Grant> {
    seq(|s|, i requires 0 <= i < |s| => Grant(s[i].role, SortMembers(s[i].members)))
  }

  /** A policy as a provider lists it, in any order, brought to normal form. */
  function Normalize(raw: Policy): Option<Policy> {
    if raw.version !in {1, 3} then None
    else if exists i :: 0 <= i < |raw.bindings| && raw.bindings[i].members == [] then None
    else if |Roles(raw.bindings)| != |raw.bindings| then None
    else Some(Policy(raw.version, Sort(SortEach(raw.bindings), RoleOf)))
  }

  predicate HasMember(p: Policy, role: string, member: string) {
    exists i :: 0 <= i < |p.bindings| && p.bindings[i].role == role && member in p.bindings[i].members
  }

  // ---- Adding

  function AddOne(g: Grant, role: string, member: string): Grant {
    if g.role == role then Grant(role, SortMembers(g.members + [member])) else g
  }

  function AddTo(s: seq<Grant>, role: string, member: string): seq<Grant> {
    var each := seq(|s|, i requires 0 <= i < |s| => AddOne(s[i], role, member));
    if role in Roles(s) then each else each + [Grant(role, [member])]
  }

  /** Adding a member that is already there is refused. */
  function AddMember(p: Policy, role: string, member: string): Option<Policy> {
    if HasMember(p, role, member) then None
    else Some(Policy(p.version, Sort(AddTo(p.bindings, role, member), RoleOf)))
  }

  // ---- Removing

  function Retained(members: seq<string>, member: string): seq<string> {
    if members == [] then []
    else
      var n := |members| - 1;
      Retained(members[..n], member) + if members[n] == member then [] else [members[n]]
  }

  /** A binding left without members disappears. */
  function RemoveOne(g: Grant, role: string, member: string): seq<Grant> {
    if g.role != role || member !in g.members then [g]
    else if Retained(g.members, member) == [] then []
    else [Grant(role, Retained(g.members, member))]
  }

  function RemoveFrom(s: seq<Grant>, role: string, member: string): seq<Grant> {
    if s == [] then []
    else RemoveFrom(s[..|s| - 1], role, member) + RemoveOne(s[|s| - 1], role, member)
  }

  /** Removing a member that is not there is refused. */
  function RemoveMember(p: Policy, role: string, member: string): Option<Policy> {
    if !HasMember(p, role, member) then None
    else Some(Policy(p.version, Sort(RemoveFrom(p.bindings, role, member), RoleOf)))
  }

  // ---- Members of one binding

  lemma {:induction false} RetainedHolds(members: seq<string>, member: string)
    ensures multiset(Retained(members, member)) == multiset(members)[member := 0]
  {
    if members != [] {
      DropLast(members);
      RetainedHolds(members[..|members| - 1], member);
    }
  }

  lemma {:induction false} RetainedSorted(members: seq<string>, member: string)
    requires Sorted(members, Text)
    ensures Sorted(Retained(members, member), Text)
  {
    if members != [] {
      var n := |members| - 1;
      var before := Retained(members[..n], member);
      RetainedSorted(members[..n], member);
      RetainedHolds(members[..n], member);
      if members[n] != member {
        forall y | y in multiset(before)
          ensures AtMost(y, members[n])
        {
          assert y in multiset(members[..n]);
          BelowLast(members, y, Text);
        }
        SortedSnoc(before, members[n], Text);
      }
    }
  }

  lemma TextKeyed(s: seq<string>)
    ensures Keyed(s, Text)
  {
  }

  /** Taking out a member just put in gives the list back. */
  lemma RetainedUndoes(members: seq<string>, member: string)
    requires Sorted(members, Text) && member !in members
    ensures Retained(SortMembers(members + [member]), member) == members
  {
    var more := SortMembers(members + [member]);
    SortHolds(members + [member], Text);
    SortSorts(members + [member], Text);
    RetainedHolds(more, member);
    RetainedSorted(more, member);
    assert multiset(Retained(more, member)) == multiset(members) by {
      assert multiset(members + [member]) == multiset(members) + multiset{member};
      assert multiset(members)[member] == 0;
    }
    TextKeyed(members);
    SortedUnique(members, Retained(more, member), Text);
  }

  /** Putting back a member gives the list back exactly when it was there once. */
  lemma RetainedRestores(members: seq<string>, member: string)
    requires Sorted(members, Text)
    ensures SortMembers(Retained(members, member) + [member]) == members <==> multiset(members)[member] == 1
  {
    var kept := Retained(members, member);
    RetainedHolds(members, member);
    SortHolds(kept + [member], Text);
    assert multiset(kept + [member]) == multiset(members)[member := 1];
    if multiset(members)[member] == 1 {
      TextKeyed(members);
      SortIsUnique(kept + [member], members, Text);
    }
  }

  // ---- Bindings with distinct roles

  lemma RolesKeyed(s: seq<Grant>)
    requires DistinctRoles(s)
    ensures Keyed(s, RoleOf)
  {
    forall x, y | x in s && y in s && x.role == y.role
      ensures x == y
    {
      var i :| 0 <= i < |s| && s[i] == x;
      var j :| 0 <= j < |s| && s[j] == y;
    }
  }

  lemma SortedStays(s: seq<Grant>)
    requires Sorted(s, RoleOf) && DistinctRoles(s)
    ensures Sort(s, RoleOf) == s
  {
    RolesKeyed(s);
    SortIsUnique(s, s, RoleOf);
  }

  /** Changing one binding's members keeps roles and order. */
  lemma ReplaceKeeps(s: seq<Grant>, k: nat, g: Grant)
    requires k < |s| && g.role == s[k].role && Sorted(s, RoleOf) && DistinctRoles(s)
    ensures Sorted(s[k := g], RoleOf) && DistinctRoles(s[k := g])
  {
    forall i | 0 <= i < |s|
      ensures RoleOf(s[k := g][i]) == RoleOf(s[i])
    {
    }
  }

  lemma {:induction false} RemoveElsewhere(s: seq<Grant>, role: string, member: string)
    requires forall i :: 0 <= i < |s| ==> s[i].role != role
    ensures RemoveFrom(s, role, member) == s
  {
    hide RemoveOne;
    if s != [] {
      var n := |s| - 1;
      RemoveElsewhere(s[..n], role, member);
      OtherRole(s[n], role, member);
      assert s == s[..n] + [s[n]];
    }
  }

  /** Removing touches only the binding of that role. */
  lemma {:induction false} RemoveAt(s: seq<Grant>, k: nat, role: string, member: string)
    requires DistinctRoles(s) && k < |s| && s[k].role == role
    ensures RemoveFrom(s, role, member) == s[..k] + RemoveOne(s[k], role, member) + s[k + 1..]
    decreases |s|
  {
    var n := |s| - 1;
    if k == n {
      RemoveElsewhere(s[..n], role, member);
      assert s[n + 1..] == [];
    } else {
      RemoveAt(s[..n], k, role, member);
      assert s[..n][..k] == s[..k];
      assert s[..n][k + 1..] + [s[n]] == s[k + 1..];
      assert RemoveOne(s[n], role, member) == [s[n]];
    }
  }

  lemma RoleListed(s: seq<Grant>, role: string)
    ensures role in Roles(s) <==> exists k :: 0 <= k < |s| && s[k].role == role
  {
  }

  lemma AddAt(s: seq<Grant>, k: nat, role: string, member: string)
    requires DistinctRoles(s) && k < |s| && s[k].role == role
    ensures AddTo(s, role, member) == s[k := Grant(role, SortMembers(s[k].members + [member]))]
  {
    assert s[k].role in Roles(s);
    forall i | 0 <= i < |s| && i != k
      ensures s[i].role != role
    {
    }
  }

  lemma AddNew(s: seq<Grant>, role: string, member: string)
    requires forall i :: 0 <= i < |s| ==> s[i].role != role
    ensures AddTo(s, role, member) == s + [Grant(role, [member])]
  {
    RoleListed(s, role);
    assert seq(|s|, i requires 0 <= i < |s| => AddOne(s[i], role, member)) == s;
  }

  lemma RemoveAppended(s: seq<Grant>, x: Grant, role: string, member: string)
    ensures RemoveFrom(s + [x], role, member) == RemoveFrom(s, role, member) + RemoveOne(x, role, member)
  {
    assert (s + [x])[..|s|] == s;
  }

  lemma SoleMember(role: string, member: string)
    ensures RemoveOne(Grant(role, [member]), role, member) == []
  {
    assert [member][..0] == [];
    assert Retained([member], member) == [];
  }

  lemma {:induction false} RemoveInserted(s: seq<Grant>, role: string, member: string)
    requires forall i :: 0 <= i < |s| ==> s[i].role != role
    ensures RemoveFrom(Insert(s, Grant(role, [member]), RoleOf), role, member) == s
  {
    hide Retained, RemoveOne, AtMost, SortMembers;
    var x := Grant(role, [member]);
    SoleMember(role, member);
    if s == [] {
      assert RemoveFrom([], role, member) == [];
      RemoveAppended([], x, role, member);
      assert [] + [x] == [x];
    } else if AtMost(s[|s| - 1].role, role) {
      RemoveElsewhere(s, role, member);
      RemoveAppended(s, x, role, member);
    } else {
      var n := |s| - 1;
      RemoveInserted(s[..n], role, member);
      RemoveAppended(Insert(s[..n], x, RoleOf), s[n], role, member);
      OtherRole(s[n], role, member);
      assert s == s[..n] + [s[n]];
    }
  }

  lemma OtherRole(g: Grant, role: string, member: string)
    requires g.role != role
    ensures RemoveOne(g, role, member) == [g]
  {
  }

  // ---- What adding and removing do to a normal policy

  lemma MembersSorted(members: seq<string>)
    requires members != []
    ensures SortMembers(members) != [] && Sorted(SortMembers(members), Text)
    ensures multiset(SortMembers(members)) == multiset(members)
  {
    SortHolds(members, Text);
    SortSorts(members, Text);
    assert members[0] in multiset(members);
  }

  /** A normal policy with other members for one role. */
  function WithMembers(p: Policy, k: nat, members: seq<string>): Policy
    requires k < |p.bindings|
  {
    Policy(p.version, p.bindings[k := Grant(p.bindings[k].role, members)])
  }

  lemma WithMembersNormal(p: Policy, k: nat, members: seq<string>)
    requires Normal(p) && k < |p.bindings| && members != [] && Sorted(members, Text)
    ensures Normal(WithMembers(p, k, members))
    ensures Sort(WithMembers(p, k, members).bindings, RoleOf) == WithMembers(p, k, members).bindings
  {
    var g := Grant(p.bindings[k].role, members);
    ReplaceKeeps(p.bindings, k, g);
    SortedStays(p.bindings[k := g]);
  }

  lemma MemberAt(p: Policy, k: nat, role: string, member: string)
    requires Normal(p) && k < |p.bindings| && p.bindings[k].role == role
    ensures HasMember(p, role, member) <==> member in p.bindings[k].members
  {
  }

  lemma AddKnown(p: Policy, k: nat, role: string, member: string)
    requires Normal(p) && k < |p.bindings| && p.bindings[k].role == role && member !in p.bindings[k].members
    ensures var q := WithMembers(p, k, SortMembers(p.bindings[k].members + [member]));
            AddMember(p, role, member) == Some(q) && Normal(q)
  {
    MemberAt(p, k, role, member);
    AddAt(p.bindings, k, role, member);
    MembersSorted(p.bindings[k].members + [member]);
    WithMembersNormal(p, k, SortMembers(p.bindings[k].members + [member]));
  }

  lemma RemoveKept(p: Policy, k: nat, role: string, member: string)
    requires Normal(p) && k < |p.bindings| && p.bindings[k].role == role && member in p.bindings[k].members
    requires Retained(p.bindings[k].members, member) != []
    ensures var q := WithMembers(p, k, Retained(p.bindings[k].members, member));
            RemoveMember(p, role, member) == Some(q) && Normal(q)
  {
    var s := p.bindings;
    var kept := Retained(s[k].members, member);
    MemberAt(p, k, role, member);
    RemoveAt(s, k, role, member);
    assert s[..k] + [Grant(role, kept)] + s[k + 1..] == s[k := Grant(role, kept)];
    RetainedSorted(s[k].members, member);
    WithMembersNormal(p, k, kept);
  }

  lemma RemoveLast(p: Policy, k: nat, role: string, member: string)
    requires Normal(p) && k < |p.bindings| && p.bindings[k].role == role && member in p.bindings[k].members
    requires Retained(p.bindings[k].members, member) == []
    ensures var q := Policy(p.version, p.bindings[..k] + p.bindings[k + 1..]);
            && RemoveMember(p, role, member) == Some(q) && Normal(q)
            && forall i :: 0 <= i < |q.bindings| ==> q.bindings[i].role != role
  {
    hide Retained, RemoveFrom, Insert, Sort, HasMember;
    var s := p.bindings;
    MemberAt(p, k, role, member);
    RemoveAt(s, k, role, member);
    assert s[..k] + [] + s[k + 1..] == s[..k] + s[k + 1..];
    WithoutNormal(p, k);
    SortedStays(s[..k] + s[k + 1..]);
  }

  lemma WithoutNormal(p: Policy, k: nat)
    requires Normal(p) && k < |p.bindings|
    ensures Normal(Policy(p.version, p.bindings[..k] + p.bindings[k + 1..]))
    ensures forall g :: g in p.bindings[..k] + p.bindings[k + 1..] ==> g.role != p.bindings[k].role
  {
    WithoutKeeps(p.bindings, k);
  }

  lemma WithoutKeeps(s: seq<Grant>, k: nat)
    requires k < |s| && Sorted(s, RoleOf) && DistinctRoles(s)
    ensures var t := s[..k] + s[k + 1..];
            && Sorted(t, RoleOf) && DistinctRoles(t)
            && forall i :: 0 <= i < |t| ==> t[i].role != s[k].role && t[i] == s[if i < k then i else i + 1]
  {
    var t := s[..k] + s[k + 1..];
    forall i | 0 <= i < |t|
      ensures t[i] == s[if i < k then i else i + 1]
    {
    }
  }

  lemma AddFresh(p: Policy, role: string, member: string)
    requires Normal(p) && forall i :: 0 <= i < |p.bindings| ==> p.bindings[i].role != role
    ensures AddMember(p, role, member)
         == Some(Policy(p.version, Insert(p.bindings, Grant(role, [member]), RoleOf)))
    ensures Normal(AddMember(p, role, member).value)
  {
    var s, x := p.bindings, Grant(role, [member]);
    AddNew(s, role, member);
    assert (s + [x])[..|s|] == s;
    SortedStays(s);
    InsertNormal(p, x);
  }

  lemma InsertNormal(p: Policy, x: Grant)
    requires Normal(p) && forall i :: 0 <= i < |p.bindings| ==> p.bindings[i].role != x.role
    requires |x.members| == 1
    ensures Normal(Policy(p.version, Insert(p.bindings, x, RoleOf)))
  {
    var t := Insert(p.bindings, x, RoleOf);
    InsertSorts(p.bindings, x, RoleOf);
    InsertDistinct(p.bindings, x);
    forall i | 0 <= i < |t|
      ensures t[i].members != [] && Sorted(t[i].members, Text)
    {
      assert t[i] in t;
    }
  }

  lemma InsertDistinct(s: seq<Grant>, x: Grant)
    requires DistinctRoles(s) && forall i :: 0 <= i < |s| ==> s[i].role != x.role
    ensures DistinctRoles(Insert(s, x, RoleOf))
    ensures forall y :: y in Insert(s, x, RoleOf) <==> y in s || y == x
    decreases |s|
  {
    if s != [] && !AtMost(RoleOf(s[|s| - 1]), RoleOf(x)) {
      var n := |s| - 1;
      InsertDistinct(s[..n], x);
      assert s == s[..n] + [s[n]];
      assert forall i :: 0 <= i < |Insert(s[..n], x, RoleOf)| ==>
          Insert(s[..n], x, RoleOf)[i] in Insert(s[..n], x, RoleOf);
    }
  }

  // ---- Remove undoes add

  lemma RemoveUndoesAddKnown(p: Policy, k: nat, role: string, member: string)
    requires Normal(p) && k < |p.bindings| && p.bindings[k].role == role && member !in p.bindings[k].members
    ensures AddMember(p, role, member).Some?
    ensures RemoveMember(AddMember(p, role, member).value, role, member) == Some(p)
  {
    var members := p.bindings[k].members;
    AddKnown(p, k, role, member);
    MembersSorted(members + [member]);
    assert member in multiset(SortMembers(members + [member]));
    RetainedUndoes(members, member);
    var more := SortMembers(members + [member]);
    RemoveKept(WithMembers(p, k, more), k, role, member);
    SameMembers(p, k, more, members);
  }

  lemma RemoveUndoesAddNew(p: Policy, role: string, member: string)
    requires Normal(p) && forall i :: 0 <= i < |p.bindings| ==> p.bindings[i].role != role
    ensures AddMember(p, role, member).Some?
    ensures RemoveMember(AddMember(p, role, member).value, role, member) == Some(p)
  {
    var s, x := p.bindings, Grant(role, [member]);
    var t := Insert(s, x, RoleOf);
    AddFresh(p, role, member);
    InsertDistinct(s, x);
    assert x in t;
    var i :| 0 <= i < |t| && t[i] == x;
    RemoveInserted(s, role, member);
    SortedStays(s);
  }

  /** On a normal policy, removing a member undoes granting it. */
  lemma RemoveUndoesAdd(p: Policy, role: string, member: string)
    requires Normal(p) && !HasMember(p, role, member)
    ensures RemoveMember(AddMember(p, role, member).value, role, member) == Some(p)
  {
    if k :| 0 <= k < |p.bindings| && p.bindings[k].role == role {
      MemberAt(p, k, role, member);
      RemoveUndoesAddKnown(p, k, role, member);
    } else {
      RemoveUndoesAddNew(p, role, member);
    }
  }

  // ---- Add undoes remove, exactly when the member was there once

  /** How often the member stands in the role's binding. */
  function Occurrences(p: Policy, role: string, member: string): nat {
    Count(p.bindings, role, member)
  }

  function Count(s: seq<Grant>, role: string, member: string): nat {
    if s == [] then 0
    else
      var last := s[|s| - 1];
      Count(s[..|s| - 1], role, member) + if last.role == role then multiset(last.members)[member] else 0
  }

  lemma {:induction false} CountAt(s: seq<Grant>, k: nat, role: string, member: string)
    requires DistinctRoles(s) && k < |s| && s[k].role == role
    ensures Count(s, role, member) == multiset(s[k].members)[member]
    decreases |s|
  {
    var n := |s| - 1;
    if k == n {
      CountElsewhere(s[..n], role, member);
    } else {
      CountAt(s[..n], k, role, member);
    }
  }

  lemma {:induction false} CountElsewhere(s: seq<Grant>, role: string, member: string)
    requires forall i :: 0 <= i < |s| ==> s[i].role != role
    ensures Count(s, role, member) == 0
  {
    if s != [] {
      CountElsewhere(s[..|s| - 1], role, member);
    }
  }

  /** The role keeps other members. */
  lemma AddUndoesRemoveKept(p: Policy, k: nat, role: string, member: string)
    requires Normal(p) && k < |p.bindings| && p.bindings[k].role == role && member in p.bindings[k].members
    requires Retained(p.bindings[k].members, member) != []
    ensures RemoveMember(p, role, member).Some?
    ensures AddMember(RemoveMember(p, role, member).value, role, member) == Some(p)
       <==> multiset(p.bindings[k].members)[member] == 1
  {
    var members := p.bindings[k].members;
    var kept := Retained(members, member);
    RemoveKept(p, k, role, member);
    RetainedHolds(members, member);
    assert member !in multiset(kept);
    AddKnown(WithMembers(p, k, kept), k, role, member);
    RetainedRestores(members, member);
    SameMembers(p, k, kept, SortMembers(kept + [member]));
  }

  lemma SameMembers(p: Policy, k: nat, some: seq<string>, members: seq<string>)
    requires k < |p.bindings|
    ensures WithMembers(WithMembers(p, k, some), k, members) == p <==> members == p.bindings[k].members
  {
    var g := Grant(p.bindings[k].role, members);
    assert p.bindings[k := Grant(p.bindings[k].role, some)][k := g] == p.bindings[k := g];
    assert p.bindings[k := g][k] == g;
    assert p.bindings[k := p.bindings[k]] == p.bindings;
  }

  /** The role's binding disappears with its only member. */
  lemma AddUndoesRemoveLast(p: Policy, k: nat, role: string, member: string)
    requires Normal(p) && k < |p.bindings| && p.bindings[k].role == role && member in p.bindings[k].members
    requires Retained(p.bindings[k].members, member) == []
    ensures RemoveMember(p, role, member).Some?
    ensures AddMember(RemoveMember(p, role, member).value, role, member) == Some(p)
       <==> multiset(p.bindings[k].members)[member] == 1
  {
    var s, x := p.bindings, Grant(role, [member]);
    var t := s[..k] + s[k + 1..];
    RemoveLast(p, k, role, member);
    AddFresh(Policy(p.version, t), role, member);
    OnlyMember(s[k].members, member);
    InsertDistinct(t, x);
    if s[k] == x {
      InsertBack(s, k);
    } else {
      assert x in Insert(t, x, RoleOf);
      NotListed(s, k, x);
    }
  }

  lemma NotListed(s: seq<Grant>, k: nat, x: Grant)
    requires DistinctRoles(s) && k < |s| && s[k].role == x.role && s[k] != x
    ensures x !in s
  {
  }

  /** Taking one binding out and inserting it again gives the list back. */
  lemma InsertBack(s: seq<Grant>, k: nat)
    requires k < |s| && Sorted(s, RoleOf) && DistinctRoles(s)
    ensures Insert(s[..k] + s[k + 1..], s[k], RoleOf) == s
  {
    var t := s[..k] + s[k + 1..];
    WithoutKeeps(s, k);
    InsertSorts(t, s[k], RoleOf);
    InsertHolds(t, s[k], RoleOf);
    assert s == s[..k] + [s[k]] + s[k + 1..];
    assert multiset(s) == multiset(t) + multiset{s[k]};
    RolesKeyed(s);
    SortedUnique(s, Insert(t, s[k], RoleOf), RoleOf);
  }

  lemma OnlyMember(members: seq<string>, member: string)
    requires member in members && Retained(members, member) == []
    ensures members == [member] <==> multiset(members)[member] == 1
  {
    RetainedHolds(members, member);
    assert |members| == |multiset(members)|;
    assert multiset(members) == multiset(members)[member := 0][member := multiset(members)[member]];
    assert multiset(members)[member := 0] == multiset{};
    assert |members| == multiset(members)[member];
  }

  /** On a normal policy, granting undoes removing exactly when the member was listed once. */
  lemma AddUndoesRemove(p: Policy, role: string, member: string)
    requires Normal(p) && HasMember(p, role, member)
    ensures AddMember(RemoveMember(p, role, member).value, role, member) == Some(p)
       <==> Occurrences(p, role, member) == 1
  {
    var k :| 0 <= k < |p.bindings| && p.bindings[k].role == role && member in p.bindings[k].members;
    CountAt(p.bindings, k, role, member);
    if Retained(p.bindings[k].members, member) == [] {
      AddUndoesRemoveLast(p, k, role, member);
    } else {
      AddUndoesRemoveKept(p, k, role, member);
    }
  }

  /** A normal policy that lists a member twice: removing and granting again lists it once. */
  lemma ListedTwice(role: string, member: string)
    ensures var p := Policy(1, [Grant(role, [member, member])]);
            && Normal(p) && HasMember(p, role, member)
            && RemoveMember(p, role, member) == Some(Policy(1, []))
            && AddMember(Policy(1, []), role, member) == Some(Policy(1, [Grant(role, [member])]))
            && Policy(1, [Grant(role, [member])]) != p
  {
    TwiceNormal(role, member);
    TwiceRemoved(role, member);
    hide Normal;
    assert AddTo([], role, member) == [Grant(role, [member])];
  }

  lemma TwiceNormal(role: string, member: string)
    ensures Normal(Policy(1, [Grant(role, [member, member])]))
  {
    AtMostTotal(member, member);
  }

  lemma TwiceRemoved(role: string, member: string)
    ensures var p := Policy(1, [Grant(role, [member, member])]);
            HasMember(p, role, member) && RemoveMember(p, role, member) == Some(Policy(1, []))
  {
    var g := Grant(role, [member, member]);
    assert g.members[..1] == [member] && [member][..0] == [];
    assert Retained([member], member) == [];
    assert Retained(g.members, member) == [];
    assert [g][..0] == [];
    assert RemoveFrom([g], role, member) == [];
    assert member in g.members;
  }

  /** Granting and removing keep the normal form. */
  lemma AddKeepsNormal(p: Policy, role: string, member: string)
    requires Normal(p) && !HasMember(p, role, member)
    ensures Normal(AddMember(p, role, member).value)
    ensures HasMember(AddMember(p, role, member).value, role, member)
  {
    RemoveUndoesAdd(p, role, member);
    if k :| 0 <= k < |p.bindings| && p.bindings[k].role == role {
      MemberAt(p, k, role, member);
      AddKnown(p, k, role, member);
    } else {
      AddFresh(p, role, member);
    }
  }

  lemma RemoveKeepsNormal(p: Policy, role: string, member: string)
    requires Normal(p) && HasMember(p, role, member)
    ensures Normal(RemoveMember(p, role, member).value)
    ensures !HasMember(RemoveMember(p, role, member).value, role, member)
  {
    var k :| 0 <= k < |p.bindings| && p.bindings[k].role == role && member in p.bindings[k].members;
    var kept := Retained(p.bindings[k].members, member);
    RetainedHolds(p.bindings[k].members, member);
    if kept == [] {
      RemoveLast(p, k, role, member);
    } else {
      RemoveKept(p, k, role, member);
      assert member !in multiset(kept);
      MemberAt(WithMembers(p, k, kept), k, role, member);
    }
  }

  /** Granting gives the role to that member and changes nothing for anybody else. */
  lemma AddGrantsOne(p: Policy, role: string, member: string, r: string, m: string)
    requires Normal(p) && !HasMember(p, role, member)
    ensures HasMember(AddMember(p, role, member).value, r, m) <==> HasMember(p, r, m) || (r == role && m == member)
  {
    hide AddMember, Insert, SortMembers;
    if k :| 0 <= k < |p.bindings| && p.bindings[k].role == role {
      MemberAt(p, k, role, member);
      AddKnown(p, k, role, member);
      var more := SortMembers(p.bindings[k].members + [member]);
      SortedListed(p.bindings[k].members, member, m);
      ReplacedMember(p, k, more, r, m);
    } else {
      var x := Grant(role, [member]);
      AddFresh(p, role, member);
      InsertDistinct(p.bindings, x);
      AnyBinding(p, r, m);
      AnyBinding(AddMember(p, role, member).value, r, m);
      assert x in AddMember(p, role, member).value.bindings;
    }
  }

  /** Revoking takes the role from that member and changes nothing for anybody else. */
  lemma RemoveTakesOne(p: Policy, role: string, member: string, r: string, m: string)
    requires Normal(p) && HasMember(p, role, member)
    ensures HasMember(RemoveMember(p, role, member).value, r, m) <==> HasMember(p, r, m) && !(r == role && m == member)
  {
    hide RemoveMember, Retained;
    var k :| 0 <= k < |p.bindings| && p.bindings[k].role == role && member in p.bindings[k].members;
    var kept := Retained(p.bindings[k].members, member);
    RetainedListed(p.bindings[k].members, member, m);
    if kept == [] {
      RemoveLast(p, k, role, member);
      WithoutKeeps(p.bindings, k);
      DroppedMember(p, k, r, m);
    } else {
      RemoveKept(p, k, role, member);
      ReplacedMember(p, k, kept, r, m);
    }
  }

  lemma AnyBinding(p: Policy, role: string, member: string)
    ensures HasMember(p, role, member) <==> exists g :: g in p.bindings && g.role == role && member in g.members
  {
  }

  lemma SortedListed(members: seq<string>, member: string, m: string)
    ensures m in SortMembers(members + [member]) <==> m in members || m == member
  {
    SortHolds(members + [member], Text);
    assert m in SortMembers(members + [member]) <==> m in multiset(members + [member]);
  }

  lemma RetainedListed(members: seq<string>, member: string, m: string)
    ensures m in Retained(members, member) <==> m in members && m != member
  {
    RetainedHolds(members, member);
    assert m in Retained(members, member) <==> m in multiset(Retained(members, member));
    assert m in members <==> m in multiset(members);
  }

  /** Other members for one role change who has that role only. */
  lemma ReplacedMember(p: Policy, k: nat, members: seq<string>, r: string, m: string)
    requires Normal(p) && k < |p.bindings|
    ensures HasMember(WithMembers(p, k, members), r, m)
       <==> if r == p.bindings[k].role then m in members else HasMember(p, r, m)
  {
    var q := WithMembers(p, k, members);
    if i :| 0 <= i < |p.bindings| && p.bindings[i].role == r && m in p.bindings[i].members {
      assert i != k ==> q.bindings[i] == p.bindings[i];
    }
    if i :| 0 <= i < |q.bindings| && q.bindings[i].role == r && m in q.bindings[i].members {
      assert i != k ==> q.bindings[i] == p.bindings[i];
    }
    assert q.bindings[k] == Grant(p.bindings[k].role, members);
  }

  /** A dropped binding takes the role from everybody. */
  lemma DroppedMember(p: Policy, k: nat, r: string, m: string)
    requires Normal(p) && k < |p.bindings|
    ensures HasMember(Policy(p.version, p.bindings[..k] + p.bindings[k + 1..]), r, m)
       <==> r != p.bindings[k].role && HasMember(p, r, m)
  {
    var s := p.bindings;
    var t := s[..k] + s[k + 1..];
    WithoutKeeps(s, k);
    if i :| 0 <= i < |s| && s[i].role == r && m in s[i].members && r != s[k].role {
      assert t[if i < k then i else i - 1] == s[i];
    }
  }

  // ---- Normalising

  lemma {:induction false} RolesCount(s: seq<Grant>)
    ensures |Roles(s)| <= |s|
    ensures |Roles(s)| == |s| <==> DistinctRoles(s)
  {
    if s != [] {
      var n := |s| - 1;
      RolesCount(s[..n]);
      RolesSnoc(s);
      DistinctRolesSnoc(s);
    }
  }

  lemma DistinctRolesSnoc(s: seq<Grant>)
    requires s != []
    ensures DistinctRoles(s) <==> DistinctRoles(s[..|s| - 1]) && s[|s| - 1].role !in Roles(s[..|s| - 1])
  {
    var n := |s| - 1;
    if s[n].role in Roles(s[..n]) {
      var i :| 0 <= i < n && s[..n][i].role == s[n].role;
      assert s[i].role == s[n].role;
    } else {
      forall i | 0 <= i < n
        ensures s[i].role != s[n].role
      {
        assert s[..n][i].role in Roles(s[..n]);
      }
    }
  }

  lemma RolesSnoc(s: seq<Grant>)
    requires s != []
    ensures Roles(s) == Roles(s[..|s| - 1]) + {s[|s| - 1].role}
  {
    var n := |s| - 1;
    forall r
      ensures r in Roles(s) <==> r in Roles(s[..n]) || r == s[n].role
    {
      if r in Roles(s) {
        var i :| 0 <= i < |s| && s[i].role == r;
        assert i < n ==> s[..n][i].role == r;
      }
      if r in Roles(s[..n]) {
        var i :| 0 <= i < n && s[..n][i].role == r;
        assert s[i].role == r;
      }
    }
  }

  /** Whatever order a provider lists a policy in, its normal form is normal and holds the same. */
  lemma NormalizeNormal(raw: Policy)
    requires Normalize(raw).Some?
    ensures Normal(Normalize(raw).value)
    ensures multiset(Normalize(raw).value.bindings) == multiset(SortEach(raw.bindings))
  {
    var s, each := raw.bindings, SortEach(raw.bindings);
    var t := Sort(each, RoleOf);
    SortSorts(each, RoleOf);
    SortHolds(each, RoleOf);
    RolesCount(s);
    assert DistinctRoles(each);
    KeepsDistinct(each, t);
    forall i | 0 <= i < |t|
      ensures t[i].members != [] && Sorted(t[i].members, Text)
    {
      assert t[i] in multiset(each);
      var j :| 0 <= j < |each| && each[j] == t[i];
      MembersSorted(s[j].members);
    }
  }

  lemma KeepsDistinct(s: seq<Grant>, t: seq<Grant>)
    requires DistinctRoles(s) && multiset(s) == multiset(t)
    ensures DistinctRoles(t)
  {
    forall i, j | 0 <= i < j < |t|
      ensures t[i].role != t[j].role
    {
      RolesKeyed(s);
      assert t[i] in multiset(s) && t[j] in multiset(s);
      if t[i] == t[j] {
        DistinctOnce(s, t[i]);
        TwiceCounted(t, i, j);
      }
    }
  }

  lemma {:induction false} DistinctOnce(s: seq<Grant>, g: Grant)
    requires DistinctRoles(s)
    ensures multiset(s)[g] <= 1
  {
    if s != [] {
      DropLast(s);
      DistinctOnce(s[..|s| - 1], g);
      assert g == s[|s| - 1] ==> g !in s[..|s| - 1];
    }
  }

  lemma TwiceCounted(t: seq<Grant>, i: nat, j: nat)
    requires i < j < |t| && t[i] == t[j]
    ensures multiset(t)[t[i]] >= 2
  {
    assert t == t[..j] + [t[j]] + t[j + 1..];
    assert t[i] in t[..j];
  }

  /** Two listings of the same bindings have one normal form. */
  lemma NormalizeSame(raw: Policy, other: Policy)
    requires Normalize(raw).Some? && Normalize(other).Some? && raw.version == other.version
    requires multiset(SortEach(raw.bindings)) == multiset(SortEach(other.bindings))
    ensures Normalize(raw) == Normalize(other)
  {
    NormalizeNormal(raw);
    NormalizeNormal(other);
    var s, t := Normalize(raw).value.bindings, Normalize(other).value.bindings;
    RolesKeyed(s);
    SortedUnique(s, t, RoleOf);
  }
}
