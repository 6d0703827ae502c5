/**
 The authority a timeline records: its last authority event, what comparing two
 of them by root and epoch tells, and when that is enough.
 */
module Authority {
  import opened Option
  import opened Timeline

  datatype Snapshot = Snapshot(rootId: string, rootSha256: string, epoch: nat, sequence: nat)

  /** The authority an entry records, if it is a root creation or an epoch advance. */
  type AuthorityOf = Entry -> Option<Snapshot>

  /** The last authority event of a list. */
  function DeriveAuthority(of: AuthorityOf, entries: seq<Entry>): Option<Snapshot> {
    if entries == [] then None
    else
      var n := |entries| - 1;
      if of(entries[n]).Some? then of(entries[n]) else DeriveAuthority(of, entries[..n])
  }

  /** Entry `i` is the last one that records an authority. */
  ghost predicate LastAuthorityAt(of: AuthorityOf, entries: seq<Entry>, i: nat) {
    && i < |entries| && of(entries[i]).Some?
    && forall j :: i < j < |entries| ==> of(entries[j]) == None
  }

  lemma {:induction false} DeriveAuthorityLast(of: AuthorityOf, entries: seq<Entry>) returns (i: nat)
    ensures if DeriveAuthority(of, entries).Some?
            then LastAuthorityAt(of, entries, i) && of(entries[i]) == DeriveAuthority(of, entries)
            else forall j :: 0 <= j < |entries| ==> of(entries[j]) == None
  {
    i := 0;
    if entries != [] {
      var n := |entries| - 1;
      if of(entries[n]).Some? {
        i := n;
      } else {
        i := DeriveAuthorityLast(of, entries[..n]);
        forall j | 0 <= j < n
          ensures entries[j] == entries[..n][j]
        {
        }
      }
    }
  }

  /** A revocation names a root and an epoch; where in the log they were recorded does not count. */
  predicate SameAuthority(a: Snapshot, b: Snapshot) {
    a.rootId == b.rootId && a.rootSha256 == b.rootSha256 && a.epoch == b.epoch
  }

  // ---- What two matching reads of one log tell

  /** Reads of the first `m` and of the first `n` entries derive the same root and epoch. */
  ghost predicate ReadsMatch(of: AuthorityOf, log: seq<Entry>, m: nat, n: nat) {
    && m <= n <= |log|
    && DeriveAuthority(of, log[..m]).Some? && DeriveAuthority(of, log[..n]).Some?
    && SameAuthority(DeriveAuthority(of, log[..m]).value, DeriveAuthority(of, log[..n]).value)
  }

  /** No authority event was logged from entry `m` up to entry `n`. */
  ghost predicate NoneLogged(of: AuthorityOf, log: seq<Entry>, m: nat, n: nat) {
    m <= n <= |log| && forall i :: m <= i < n ==> of(log[i]) == None
  }

  /** Every root and epoch is recorded by one event only. */
  ghost predicate OncePerEpoch(of: AuthorityOf, log: seq<Entry>) {
    forall i, j :: 0 <= i < j < |log| && of(log[i]).Some? && of(log[j]).Some? ==>
      !SameAuthority(of(log[i]).value, of(log[j]).value)
  }

  /** In a log that records each root and epoch once, matching reads saw the very same event. */
  lemma MatchingReads(of: AuthorityOf, log: seq<Entry>, m: nat, n: nat)
    requires OncePerEpoch(of, log) && ReadsMatch(of, log, m, n)
    ensures NoneLogged(of, log, m, n) && DeriveAuthority(of, log[..m]) == DeriveAuthority(of, log[..n])
  {
    var i := DeriveAuthorityLast(of, log[..m]);
    var j := DeriveAuthorityLast(of, log[..n]);
    assert log[..m][i] == log[i] && log[..n][j] == log[j];
    forall k | m <= k < n
      ensures of(log[k]) == None
    {
      assert log[..n][k] == log[k];
    }
  }

  lemma EventEndsPrefix(of: AuthorityOf, log: seq<Entry>, i: nat)
    requires i < |log| && of(log[i]).Some?
    ensures DeriveAuthority(of, log[..i + 1]) == of(log[i])
  {
    assert log[..i + 1][i] == log[i];
  }

  /**
   Comparing root and epoch tells whether the authority changed between any two
   reads exactly when the log records each root and epoch once.
   */
  lemma OncePerEpochExact(of: AuthorityOf, log: seq<Entry>)
    ensures OncePerEpoch(of, log)
       <==> forall m: nat, n: nat :: ReadsMatch(of, log, m, n) ==> NoneLogged(of, log, m, n)
  {
    if OncePerEpoch(of, log) {
      forall m: nat, n: nat | ReadsMatch(of, log, m, n)
        ensures NoneLogged(of, log, m, n)
      {
        MatchingReads(of, log, m, n);
      }
    }
    if forall m: nat, n: nat :: ReadsMatch(of, log, m, n) ==> NoneLogged(of, log, m, n) {
      forall i, j | 0 <= i < j < |log| && of(log[i]).Some? && of(log[j]).Some?
        ensures !SameAuthority(of(log[i]).value, of(log[j]).value)
      {
        EventEndsPrefix(of, log, i);
        EventEndsPrefix(of, log, j);
        assert ReadsMatch(of, log, i + 1, j + 1) ==> NoneLogged(of, log, i + 1, j + 1);
      }
    }
  }

  // ---- The logs the kernel writes

  ghost predicate Records(of: AuthorityOf, log: seq<Entry>, i: nat, rootId: string) {
    i < |log| && of(log[i]).Some? && of(log[i]).value.rootId == rootId
  }

  /** Each event of a root comes at the epoch after the root's event before it. */
  ghost predicate AdvancesByOne(of: AuthorityOf, log: seq<Entry>) {
    forall i: nat, j: nat, rootId ::
      && i < j && Records(of, log, i, rootId) && Records(of, log, j, rootId)
      && (forall k :: i < k < j ==> !Records(of, log, k, rootId)) ==>
        of(log[j]).value.epoch == of(log[i]).value.epoch + 1
  }

  /** So a root's epochs rise along the log. */
  lemma {:induction false} EpochsRise(of: AuthorityOf, log: seq<Entry>, i: nat, j: nat, rootId: string)
    requires AdvancesByOne(of, log) && i < j && Records(of, log, i, rootId) && Records(of, log, j, rootId)
    ensures of(log[i]).value.epoch < of(log[j]).value.epoch
    decreases j - i
  {
    if k :| i < k < j && Records(of, log, k, rootId) {
      EpochsRise(of, log, i, k, rootId);
      EpochsRise(of, log, k, j, rootId);
    }
  }

  /** A log in which every root advances by one records each root and epoch once. */
  lemma AdvancingIsOnce(of: AuthorityOf, log: seq<Entry>)
    requires AdvancesByOne(of, log)
    ensures OncePerEpoch(of, log)
  {
    forall i, j | 0 <= i < j < |log| && of(log[i]).Some? && of(log[j]).Some?
      ensures !SameAuthority(of(log[i]).value, of(log[j]).value)
    {
      if of(log[i]).value.rootId == of(log[j]).value.rootId {
        EpochsRise(of, log, i, j, of(log[i]).value.rootId);
      }
    }
  }
}
