/**
 The summary of a paged traversal: it checks pages whatever server sent them.
 What it accepts is a linked slice, and it accepts everything an honest server sends.
 */
module TimelineSummary {
  import opened Option
  import opened Timeline

  datatype Binding = Binding(after: Cursor, entryCount: nat, next: Cursor, sha: Digest)

  datatype Summary = Summary(
    audience: Audience, entryCount: nat, head: Cursor, pageCount: nat, bindings: seq<Binding>, pageSetSha: Digest)

  /** The digests of a page's canonical form, and of the list of page digests. */
  datatype Hashes = Hashes(page: Page -> Digest, pageSet: seq<Digest> -> Digest)

  function BindingOf(p: Page, h: Hashes): Binding {
    Binding(p.after, |p.entries|, p.next, h.page(p))
  }

  function PageShas(pages: seq<Page>, h: Hashes): seq<Digest> {
    seq(|pages|, k requires 0 <= k < |pages| => h.page(pages[k]))
  }

  // ---- What is accepted

  /** Page `k` starts where the one before it ended. */
  function ExpectedStart(pages: seq<Page>, k: nat): Cursor
    requires pages != [] && k <= |pages|
  {
    if k == 0 then pages[0].after else pages[k - 1].next
  }

  ghost predicate PageAccepted(pages: seq<Page>, k: nat)
    requires k < |pages|
  {
    var p, head := pages[k], pages[0].head;
    && p.audience == pages[0].audience
    && p.after == ExpectedStart(pages, k)
    && Linked(p.after, p.entries)
    && p.next == After(p.after, p.entries, |p.entries|)
    && p.next.sequence <= head.sequence
    && p.hasMore == (p.next.sequence < p.head.sequence)
    && HeadExtends(head, if k == 0 then None else Some(pages[k - 1].head), p.head)
  }

  ghost predicate Accepted(pages: seq<Page>) {
    && pages != []
    && (pages[0].after.sequence == 0 <==> pages[0].after.sha == None)
    && (forall k: nat :: k < |pages| ==> PageAccepted(pages, k))
    && ExpectedStart(pages, |pages|) == pages[0].head
  }

  // ---- The checker

  /** Walk one page's entries from its start; `None` at the first broken link. */
  method WalkPage(p: Page) returns (r: Option<Cursor>)
    ensures r.Some? <==> Linked(p.after, p.entries)
    ensures r.Some? ==> r.value == After(p.after, p.entries, |p.entries|)
  {
    var at := p.after;
    for i := 0 to |p.entries|
      invariant forall j :: 0 <= j < i ==> LinkedAt(p.after, p.entries, j)
      invariant at == After(p.after, p.entries, i)
      invariant at.sequence == p.after.sequence + i
    {
      var entry := p.entries[i];
      if entry.sequence != at.sequence + 1 || entry.previous != at.sha {
        assert !LinkedAt(p.after, p.entries, i);
        return None;
      }
      at := Cursor(at.sequence + 1, Some(entry.sha));
    }
    return Some(at);
  }

  method TimelinePageSummary(pages: seq<Page>, h: Hashes) returns (r: Result<Summary>)
    ensures r.Ok? <==> Accepted(pages)
    ensures r.Ok? ==>
              && r.value.audience == pages[0].audience
              && r.value.head == pages[0].head
              && r.value.entryCount == |Entries(pages)|
              && r.value.pageCount == |pages| == |r.value.bindings|
              && (forall k :: 0 <= k < |pages| ==> r.value.bindings[k] == BindingOf(pages[k], h))
              && r.value.pageSetSha == h.pageSet(PageShas(pages, h))
    ensures r.Err? ==> r.error == TimelineInvalid
  {
    hide Linked, After;
    if pages == [] {
      return Err(TimelineInvalid);
    }
    var first := pages[0];
    var expected := first.after;
    var head := first.head;
    if (expected.sequence == 0) != (expected.sha == None) {
      return Err(TimelineInvalid);
    }
    var observed := head;
    var bindings: seq<Binding> := [];
    var pageShas: seq<Digest> := [];
    var entryCount := 0;
    for k := 0 to |pages|
      invariant |bindings| == k && forall j :: 0 <= j < k ==> bindings[j] == BindingOf(pages[j], h)
      invariant |pageShas| == k && forall j :: 0 <= j < k ==> pageShas[j] == h.page(pages[j])
      invariant forall j: nat :: j < k ==> PageAccepted(pages, j)
      invariant expected == ExpectedStart(pages, k)
      invariant observed == if k == 0 then head else pages[k - 1].head
      invariant entryCount == |Entries(pages[..k])|
    {
      var page := pages[k];
      if !HeadExtends(head, Some(observed), page.head)
        || page.audience != first.audience
        || page.after != expected
      {
        assert !PageAccepted(pages, k);
        return Err(TimelineInvalid);
      }
      observed := page.head;
      var reached := WalkPage(page);
      if || reached == None
         || page.next != reached.value
         || page.next.sequence > head.sequence
         || page.hasMore != (page.next.sequence < page.head.sequence)
      {
        assert !PageAccepted(pages, k);
        return Err(TimelineInvalid);
      }
      assert PageAccepted(pages, k);
      var pageSha := h.page(page);
      pageShas := pageShas + [pageSha];
      bindings := bindings + [Binding(page.after, |page.entries|, page.next, pageSha)];
      assert pages[..k + 1] == pages[..k] + [page];
      EntriesSnoc(pages[..k], page);
      entryCount := entryCount + |page.entries|;
      expected := page.next;
    }
    assert pages[..|pages|] == pages;
    if expected != head {
      return Err(TimelineInvalid);
    }
    assert pageShas == PageShas(pages, h);
    r := Ok(Summary(first.audience, entryCount, head, |pages|, bindings, h.pageSet(pageShas)));
  }

  // ---- Soundness: what is accepted is a linked slice

  /** The first `n` accepted pages hold linked entries ending where page `n` starts. */
  lemma {:induction false} PagesLinked(pages: seq<Page>, n: nat)
    requires Accepted(pages) && n <= |pages|
    ensures Linked(pages[0].after, Entries(pages[..n]))
    ensures After(pages[0].after, Entries(pages[..n]), |Entries(pages[..n])|) == ExpectedStart(pages, n)
  {
    if n == 0 {
      assert Entries(pages[..0]) == [];
    } else {
      PagesLinked(pages, n - 1);
      assert PageAccepted(pages, n - 1);
      assert pages[..n] == pages[..n - 1] + [pages[n - 1]];
      EntriesSnoc(pages[..n - 1], pages[n - 1]);
      LinkedConcat(pages[0].after, Entries(pages[..n - 1]), pages[n - 1].entries);
    }
  }

  /** Accepted pages hold consecutive, hash-linked entries from the anchor to the frozen head. */
  lemma AcceptedIsLinked(pages: seq<Page>)
    requires Accepted(pages)
    ensures var anchor, head, entries := pages[0].after, pages[0].head, Entries(pages);
            && Linked(anchor, entries)
            && After(anchor, entries, |entries|) == head
            && |entries| == head.sequence - anchor.sequence
  {
    PagesLinked(pages, |pages|);
    assert pages[..|pages|] == pages;
    LinkedLength(pages[0].after, Entries(pages));
  }

  /** What acceptance says of each page, and of where the first one starts. */
  lemma AcceptedPage(pages: seq<Page>, k: nat)
    requires Accepted(pages) && k < |pages|
    ensures pages[k].audience == pages[0].audience
    ensures pages[k].after == if k == 0 then pages[0].after else pages[k - 1].next
    ensures pages[k].next.sequence == pages[k].after.sequence + |pages[k].entries| <= pages[0].head.sequence
    ensures pages[k].entries != [] ==> pages[k].next.sha == Some(pages[k].entries[|pages[k].entries| - 1].sha)
    ensures pages[k].hasMore <==> pages[k].next.sequence < pages[k].head.sequence
    ensures pages[0].after.sequence == 0 <==> pages[0].after.sha == None
    ensures Extends(pages[0].head, pages[k].head) && (k > 0 ==> Extends(pages[k - 1].head, pages[k].head))
  {
    assert PageAccepted(pages, k);
    LinkedLength(pages[k].after, pages[k].entries);
    HeadExtendsMeans(pages[0].head, if k == 0 then None else Some(pages[k - 1].head), pages[k].head);
  }

  /** All the heads seen are pairwise consistent: none goes back, none changes its digest. */
  lemma {:induction false} HeadsConsistent(pages: seq<Page>, i: nat, j: nat)
    requires Accepted(pages) && i <= j < |pages|
    ensures pages[i].head.sequence <= pages[j].head.sequence
    ensures pages[i].head.sequence == pages[j].head.sequence ==> pages[i].head == pages[j].head
    decreases j
  {
    if i < j {
      HeadsConsistent(pages, i, j - 1);
      assert PageAccepted(pages, j);
    }
  }

  // ---- Two traversals with the same ends

  /** A collision-free digest: it determines the entry it was computed from. */
  ghost predicate DigestsOf(content: Digest -> Entry, entries: seq<Entry>) {
    forall i :: 0 <= i < |entries| ==> content(entries[i].sha) == entries[i]
  }

  /** Linked entries ending in the same digest agree backwards, as far as both go. */
  lemma {:induction false} SameEndSameEntries(
    content: Digest -> Entry, start: Cursor, a: seq<Entry>, b: seq<Entry>)
    requires Linked(start, a) && Linked(start, b) && |a| == |b|
    requires DigestsOf(content, a) && DigestsOf(content, b)
    requires After(start, a, |a|).sha == After(start, b, |b|).sha
    ensures a == b
  {
    if a != [] {
      var n := |a| - 1;
      assert a[n] == content(a[n].sha) == b[n];
      assert LinkedAt(start, a, n) && LinkedAt(start, b, n);
      var a', b' := a[..n], b[..n];
      assert After(start, a', n) == After(start, a, n) && After(start, b', n) == After(start, b, n);
      PrefixLinked(start, a, n);
      PrefixLinked(start, b, n);
      SameEndSameEntries(content, start, a', b');
      assert a == a' + [a[n]] && b == b' + [b[n]];
    }
  }

  lemma PrefixLinked(start: Cursor, a: seq<Entry>, n: nat)
    requires Linked(start, a) && n <= |a|
    ensures Linked(start, a[..n])
  {
    forall i | 0 <= i < n
      ensures LinkedAt(start, a[..n], i)
    {
      assert LinkedAt(start, a, i);
    }
  }

  /**
   Two accepted traversals with the same anchor and the same head digest hold the
   same entries, when digests do not collide (the anchor's digest included).
   */
  lemma SameHeadSameEntries(content: Digest -> Entry, p: seq<Page>, q: seq<Page>)
    requires Accepted(p) && Accepted(q)
    requires p[0].after == q[0].after && p[0].head.sha == q[0].head.sha
    requires DigestsOf(content, Entries(p)) && DigestsOf(content, Entries(q))
    requires p[0].after.sha.Some? ==> content(p[0].after.sha.value).sequence == p[0].after.sequence
    ensures Entries(p) == Entries(q)
  {
    AcceptedIsLinked(p);
    AcceptedIsLinked(q);
    EndSequence(content, p);
    EndSequence(content, q);
    SameEndSameEntries(content, p[0].after, Entries(p), Entries(q));
  }

  /** The head digest alone tells the head's sequence. */
  lemma EndSequence(content: Digest -> Entry, p: seq<Page>)
    requires Accepted(p) && DigestsOf(content, Entries(p))
    requires p[0].after.sha.Some? ==> content(p[0].after.sha.value).sequence == p[0].after.sequence
    ensures p[0].head.sequence ==
            if p[0].head.sha == None then 0 else content(p[0].head.sha.value).sequence
  {
    AcceptedIsLinked(p);
    var entries := Entries(p);
    if entries != [] {
      assert p[0].head == Cursor(entries[|entries| - 1].sequence, Some(entries[|entries| - 1].sha));
    }
  }

  ghost predicate Injective<T(!new), U(!new)>(f: T -> U) {
    forall x, y :: f(x) == f(y) ==> x == y
  }

  /** With digests that do not collide, the page-set digest fixes every page of a traversal. */
  lemma PageSetFixesPages(p: seq<Page>, q: seq<Page>, h: Hashes)
    requires Injective(h.page) && Injective(h.pageSet)
    requires h.pageSet(PageShas(p, h)) == h.pageSet(PageShas(q, h))
    ensures p == q
  {
    assert PageShas(p, h) == PageShas(q, h);
    assert |p| == |PageShas(p, h)| == |q|;
    forall k | 0 <= k < |p|
      ensures p[k] == q[k]
    {
      assert PageShas(p, h)[k] == PageShas(q, h)[k];
    }
  }

  // ---- Completeness: an honest traversal is accepted

  /** One page of a log, up to `end`, is linked and ends where it says. */
  lemma PageLinked(p: Page, log: seq<Entry>, start: nat, end: nat)
    requires IsLog(log) && start <= end <= |log|
    requires p.after == Position(log, start) && p.entries == log[start..end] && p.next == Position(log, end)
    ensures Linked(p.after, p.entries)
    ensures p.next == After(p.after, p.entries, |p.entries|)
    ensures p.next.sequence == end
  {
    SliceLinked(log, start, end);
    PositionSequence(log, end);
  }

  lemma HeadSequence(log: seq<Entry>)
    requires IsLog(log)
    ensures Head(log).sequence == |log|
  {
    PositionSequence(log, |log|);
  }

  lemma HonestPageWalks(p: Page, k: nat, logs: nat -> seq<Entry>, firstRead: nat, from: nat)
    requires Growing(logs) && PagedAt(p, k, logs, firstRead, from)
    ensures Linked(p.after, p.entries)
    ensures p.next == After(p.after, p.entries, |p.entries|)
    ensures p.next.sequence <= Head(logs(firstRead)).sequence
    ensures p.hasMore == (p.next.sequence < p.head.sequence)
  {
    var log := logs(firstRead);
    assert IsLog(log) && IsLog(logs(firstRead + k));
    PageLinked(p, log, from + PAGE_LIMIT * k, Min(from + PAGE_LIMIT * (k + 1), |log|));
    HeadSequence(log);
    HeadSequence(logs(firstRead + k));
  }

  /** Each page starts where the one before it, which was full, ended. */
  lemma HonestPageStarts(pages: seq<Page>, logs: nat -> seq<Entry>, firstRead: nat, from: nat, k: nat)
    requires Paged(pages, logs, firstRead, from) && k < |pages|
    ensures pages[k].after == ExpectedStart(pages, k)
  {
    assert PagedAt(pages[k], k, logs, firstRead, from);
    if k > 0 {
      assert PagedAt(pages[k - 1], k - 1, logs, firstRead, from);
    }
  }

  lemma HonestPageAccepted(pages: seq<Page>, logs: nat -> seq<Entry>, firstRead: nat, from: nat, k: nat)
    requires Growing(logs) && Paged(pages, logs, firstRead, from) && k < |pages|
    ensures PageAccepted(pages, k)
  {
    assert PagedAt(pages[k], k, logs, firstRead, from) && PagedAt(pages[0], 0, logs, firstRead, from);
    HonestPageStarts(pages, logs, firstRead, from, k);
    HonestPageWalks(pages[k], k, logs, firstRead, from);
    HonestHeadsExtend(logs, firstRead, k);
    if k > 0 {
      assert PagedAt(pages[k - 1], k - 1, logs, firstRead, from);
    }
  }

  /** What an honest server's pages look like is always accepted. */
  lemma HonestAccepted(pages: seq<Page>, logs: nat -> seq<Entry>, firstRead: nat, from: nat)
    requires Growing(logs) && ReadsSlice(pages, logs, firstRead, from)
    requires |pages| == PagesNeeded(|logs(firstRead)| - from)
    ensures Accepted(pages)
  {
    var log := logs(firstRead);
    assert IsLog(log);
    PositionSequence(log, from);
    forall k: nat | k < |pages|
      ensures PageAccepted(pages, k)
    {
      HonestPageAccepted(pages, logs, firstRead, from, k);
    }
    assert PagedAt(pages[|pages| - 1], |pages| - 1, logs, firstRead, from);
    assert PagedAt(pages[0], 0, logs, firstRead, from);
  }
}
