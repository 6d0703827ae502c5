/**
 The acceptance runner's timeline reader: pages of a hash-linked log that may
 grow between any two reads, the raw export that follows them, and the summary
 that checks whatever a server sent.
 */
module Timeline {
  import opened Option

  type Digest = string

  const PAGE_LIMIT: nat := 16
  const MAX_PAGES: nat := 100
  const MAX_RAW_READS: nat := 1000

  datatype Entry = Entry(sequence: nat, previous: Option<Digest>, sha: Digest, rootId: string)

  /** A position in the log: how many entries come before, and the last one's digest. */
  datatype Cursor = Cursor(sequence: nat, sha: Option<Digest>)

  datatype Query = Query(after: Cursor, limit: nat)

  datatype Audience = PublicDemo | Operator | SecurityAudit | Restricted

  datatype Page = Page(
    audience: Audience, after: Cursor, entries: seq<Entry>, next: Cursor, head: Cursor, hasMore: bool)

  datatype Error = TimelineChanged | TimelineInvalid | TimelineTooLarge

  datatype Result<+T> = Ok(value: T) | Err(error: Error)

  /** A server answers the n-th read of a run with a page, or not at all. */
  type Server = (nat, Query) -> Option<Page>

  // ---- Linked entries

  /** The position reached after reading `n` entries from `start`. */
  function After(start: Cursor, entries: seq<Entry>, n: nat): Cursor
    requires n <= |entries|
  {
    if n == 0 then start else Cursor(entries[n - 1].sequence, Some(entries[n - 1].sha))
  }

  /** Consecutive entries, each naming the digest of the one before. */
  ghost predicate Linked(start: Cursor, entries: seq<Entry>) {
    forall i :: 0 <= i < |entries| ==> LinkedAt(start, entries, i)
  }

  ghost predicate LinkedAt(start: Cursor, entries: seq<Entry>, i: nat)
    requires i < |entries|
  {
    && entries[i].sequence == start.sequence + i + 1
    && entries[i].previous == After(start, entries, i).sha
  }

  const ORIGIN: Cursor := Cursor(0, None)

  ghost predicate IsLog(log: seq<Entry>) {
    Linked(ORIGIN, log)
  }

  function Position(log: seq<Entry>, n: nat): Cursor
    requires n <= |log|
  {
    After(ORIGIN, log, n)
  }

  function Head(log: seq<Entry>): Cursor {
    Position(log, |log|)
  }

  lemma PositionSequence(log: seq<Entry>, n: nat)
    requires IsLog(log) && n <= |log|
    ensures Position(log, n).sequence == n
  {
    if n > 0 {
      assert LinkedAt(ORIGIN, log, n - 1);
    }
  }

  lemma PositionInPrefix(log: seq<Entry>, longer: seq<Entry>, n: nat)
    requires log <= longer && n <= |log|
    ensures Position(log, n) == Position(longer, n)
  {
  }

  lemma SliceLinked(log: seq<Entry>, m: nat, n: nat)
    requires IsLog(log) && m <= n <= |log|
    ensures Linked(Position(log, m), log[m..n])
    ensures After(Position(log, m), log[m..n], n - m) == Position(log, n)
  {
    PositionSequence(log, m);
    forall i | 0 <= i < n - m
      ensures LinkedAt(Position(log, m), log[m..n], i)
    {
      assert LinkedAt(ORIGIN, log, m + i);
    }
  }

  lemma LinkedLength(start: Cursor, a: seq<Entry>)
    requires Linked(start, a)
    ensures After(start, a, |a|).sequence == start.sequence + |a|
  {
    if a != [] {
      assert LinkedAt(start, a, |a| - 1);
    }
  }

  lemma LinkedConcat(start: Cursor, a: seq<Entry>, b: seq<Entry>)
    requires Linked(start, a) && Linked(After(start, a, |a|), b)
    ensures Linked(start, a + b)
    ensures After(start, a + b, |a + b|) == After(After(start, a, |a|), b, |b|)
  {
    forall i | 0 <= i < |a + b|
      ensures LinkedAt(start, a + b, i)
    {
      if i < |a| {
        assert LinkedAt(start, a, i);
      } else {
        LinkedInTail(start, a, b, i - |a|);
      }
    }
  }

  lemma LinkedInTail(start: Cursor, a: seq<Entry>, b: seq<Entry>, i: nat)
    requires Linked(start, a) && Linked(After(start, a, |a|), b) && i < |b|
    ensures LinkedAt(start, a + b, |a| + i)
  {
    LinkedLength(start, a);
    assert LinkedAt(After(start, a, |a|), b, i);
    assert After(start, a + b, |a| + i) == After(After(start, a, |a|), b, i);
  }

  // ---- Heads

  /** Accept a new head only if it extends the frozen one and the last one seen. */
  predicate HeadExtends(frozen: Cursor, previous: Option<Cursor>, current: Cursor) {
    && !(current.sequence < frozen.sequence)
    && !(current.sequence == frozen.sequence && current.sha != frozen.sha)
    && (previous.Some? ==>
          && !(current.sequence < previous.value.sequence)
          && !(current.sequence == previous.value.sequence && current.sha != previous.value.sha))
  }

  /** One head may follow another: it is further on, or the same. */
  predicate Extends(earlier: Cursor, later: Cursor) {
    earlier.sequence < later.sequence || earlier == later
  }

  lemma HeadExtendsMeans(frozen: Cursor, previous: Option<Cursor>, current: Cursor)
    ensures HeadExtends(frozen, previous, current)
       <==> Extends(frozen, current) && (previous.Some? ==> Extends(previous.value, current))
  {
  }

  // ---- What a traversal is, against any server

  /** The query after these pages: from where the last one ended, at most sixteen and no more than is left. */
  function QueryAfter(anchor: Cursor, pages: seq<Page>): Query {
    if pages == [] then Query(anchor, 16)
    else
      var next := pages[|pages| - 1].next;
      var left := pages[0].head.sequence as int - next.sequence as int;
      Query(next, if left >= 16 then 16 else if left < 1 then 1 else left)
  }

  /** The heads of these pages: each extends the first and the one before. */
  ghost predicate HeadsExtend(pages: seq<Page>) {
    forall k :: 0 < k < |pages| ==>
      Extends(pages[0].head, pages[k].head) && Extends(pages[k - 1].head, pages[k].head)
  }

  /** The pages are the server's answers, one query after the other, and all stop short of the first head. */
  ghost predicate Traversed(server: Server, firstRead: nat, anchor: Cursor, pages: seq<Page>) {
    && (forall k :: 0 <= k < |pages| ==> server(firstRead + k, QueryAfter(anchor, pages[..k])) == Some(pages[k]))
    && HeadsExtend(pages)
    && forall k :: 0 <= k < |pages| ==> pages[k].next.sequence < pages[0].head.sequence
  }

  /** How a traversal ends after the pages `seen`: by the next answer, or after a hundred. */
  ghost predicate Ends(
    server: Server, firstRead: nat, anchor: Cursor, seen: seq<Page>, r: Result<seq<Page>>)
  {
    if |seen| == 100 then r == Err(TimelineTooLarge)
    else
      match server(firstRead + |seen|, QueryAfter(anchor, seen))
      case None => r == Err(TimelineInvalid)
      case Some(page) =>
        var pages := seen + [page];
        && (r == if HeadsExtend(pages) && page.next == pages[0].head then Ok(pages) else Err(TimelineChanged))
        && !(HeadsExtend(pages) && page.next.sequence < pages[0].head.sequence)
  }

  /** Whatever the server answers, a traversal has one outcome. */
  lemma OneOutcome(
    server: Server, firstRead: nat, anchor: Cursor,
    seen: seq<Page>, r: Result<seq<Page>>, other: seq<Page>, s: Result<seq<Page>>)
    requires |seen| <= 100 && Traversed(server, firstRead, anchor, seen) && Ends(server, firstRead, anchor, seen, r)
    requires |other| <= 100 && Traversed(server, firstRead, anchor, other) && Ends(server, firstRead, anchor, other, s)
    ensures seen == other && r == s
  {
    hide QueryAfter, HeadsExtend, Traversed;
    if |seen| <= |other| {
      SamePages(server, firstRead, anchor, seen, other, |seen|);
      Onwards(server, firstRead, anchor, seen, r, other);
    } else {
      SamePages(server, firstRead, anchor, other, seen, |other|);
      Onwards(server, firstRead, anchor, other, s, seen);
    }
  }

  lemma {:induction false} SamePages(
    server: Server, firstRead: nat, anchor: Cursor, seen: seq<Page>, other: seq<Page>, n: nat)
    requires Traversed(server, firstRead, anchor, seen) && Traversed(server, firstRead, anchor, other)
    requires n <= |seen| && n <= |other|
    ensures seen[..n] == other[..n]
  {
    hide QueryAfter, HeadsExtend;
    if n > 0 {
      SamePages(server, firstRead, anchor, seen, other, n - 1);
      assert server(firstRead + (n - 1), QueryAfter(anchor, seen[..n - 1])) == Some(seen[n - 1]);
      assert server(firstRead + (n - 1), QueryAfter(anchor, other[..n - 1])) == Some(other[n - 1]);
      assert seen[..n] == seen[..n - 1] + [seen[n - 1]] && other[..n] == other[..n - 1] + [other[n - 1]];
    }
  }

  /** A traversal that has ended does not go on. */
  lemma Onwards(
    server: Server, firstRead: nat, anchor: Cursor, seen: seq<Page>, r: Result<seq<Page>>, longer: seq<Page>)
    requires Ends(server, firstRead, anchor, seen, r) && Traversed(server, firstRead, anchor, longer)
    requires |longer| <= 100 && seen <= longer
    ensures seen == longer
  {
    hide QueryAfter, HeadsExtend;
    assert seen == longer[..|seen|];
    if |seen| < |longer| {
      GoesOn(server, firstRead, anchor, longer, |seen|);
    }
  }

  lemma GoesOn(server: Server, firstRead: nat, anchor: Cursor, pages: seq<Page>, n: nat)
    requires Traversed(server, firstRead, anchor, pages) && n < |pages|
    ensures server(firstRead + n, QueryAfter(anchor, pages[..n])) == Some(pages[n])
    ensures var more := pages[..n] + [pages[n]];
            HeadsExtend(more) && pages[n].next.sequence < more[0].head.sequence
  {
    hide QueryAfter, Extends;
    var more := pages[..n] + [pages[n]];
    assert more[0] == pages[0];
    forall k | 0 < k < |more|
      ensures Extends(more[0].head, more[k].head) && Extends(more[k - 1].head, more[k].head)
    {
      assert more[k] == pages[k] && more[k - 1] == pages[k - 1];
    }
  }

  /** One more answer, short of the first head, carries the traversal on. */
  lemma TraversedSnoc(server: Server, firstRead: nat, anchor: Cursor, pages: seq<Page>, page: Page)
    requires Traversed(server, firstRead, anchor, pages)
    requires server(firstRead + |pages|, QueryAfter(anchor, pages)) == Some(page)
    requires HeadsExtend(pages + [page]) && page.next.sequence < (pages + [page])[0].head.sequence
    ensures Traversed(server, firstRead, anchor, pages + [page])
  {
    hide QueryAfter, HeadsExtend;
    var more := pages + [page];
    forall k | 0 <= k < |more|
      ensures server(firstRead + k, QueryAfter(anchor, more[..k])) == Some(more[k])
      ensures more[k].next.sequence < more[0].head.sequence
    {
      if k < |pages| {
        assert more[..k] == pages[..k];
        assert server(firstRead + k, QueryAfter(anchor, pages[..k])) == Some(pages[k]);
      } else {
        assert more[..k] == pages;
      }
    }
  }

  lemma HeadsSnoc(pages: seq<Page>, page: Page)
    requires HeadsExtend(pages)
    ensures HeadsExtend(pages + [page])
       <==> HeadExtends(
              if pages == [] then page.head else pages[0].head,
              if pages == [] then None else Some(pages[|pages| - 1].head),
              page.head)
  {
    var more := pages + [page];
    HeadExtendsMeans(
      more[0].head, if pages == [] then None else Some(pages[|pages| - 1].head), page.head);
    if pages != [] && Extends(more[0].head, page.head) && Extends(pages[|pages| - 1].head, page.head) {
      forall k | 0 < k < |more|
        ensures Extends(more[0].head, more[k].head) && Extends(more[k - 1].head, more[k].head)
      {
        assert k < |pages| ==> more[k] == pages[k] && more[k - 1] == pages[k - 1];
      }
    }
    if pages != [] && HeadsExtend(more) {
      assert Extends(more[0].head, more[|pages|].head) && Extends(more[|pages| - 1].head, more[|pages|].head);
    }
  }

  // ---- An honest server over a growing log

  /** Read `m` comes no later than read `n`. */
  predicate Later(m: nat, n: nat) {
    m <= n
  }

  /** `logs(n)` is the log at the n-th read; entries are only ever appended. */
  ghost predicate Growing(logs: nat -> seq<Entry>) {
    && (forall n: nat {:trigger IsLog(logs(n))} :: IsLog(logs(n)))
    && forall m: nat, n: nat {:trigger Later(m, n)} :: Later(m, n) ==> logs(m) <= logs(n)
  }

  function Min(a: nat, b: nat): nat {
    if a <= b then a else b
  }

  /** The page an honest server gives for a query at a position of its log. */
  function PageAt(log: seq<Entry>, n: nat, limit: nat): Page
    requires n <= |log|
  {
    var end := Min(n + limit, |log|);
    Page(Operator, Position(log, n), log[n..end], Position(log, end), Head(log), end < |log|)
  }

  ghost predicate Honest(server: Server, logs: nat -> seq<Entry>) {
    && Growing(logs)
    && forall read: nat, n: nat, limit: nat {:trigger server(read, Query(Position(logs(read), n), limit))} ::
         n <= |logs(read)| && limit >= 1 ==>
           server(read, Query(Position(logs(read), n), limit)) == Some(PageAt(logs(read), n, limit))
  }

  /** Any growing log has an honest server. */
  function HonestServer(logs: nat -> seq<Entry>): Server {
    (read: nat, query: Query) =>
      var n := query.after.sequence;
      if n <= |logs(read)| && Position(logs(read), n) == query.after && query.limit >= 1
      then Some(PageAt(logs(read), n, query.limit)) else None
  }

  lemma HonestServerExists(logs: nat -> seq<Entry>)
    requires Growing(logs)
    ensures Honest(HonestServer(logs), logs)
  {
    forall read: nat, n: nat, limit: nat | n <= |logs(read)| && limit >= 1
      ensures HonestServer(logs)(read, Query(Position(logs(read), n), limit)) == Some(PageAt(logs(read), n, limit))
    {
      assert IsLog(logs(read));
      PositionSequence(logs(read), n);
    }
  }

  function Entries(pages: seq<Page>): seq<Entry> {
    if pages == [] then [] else Entries(pages[..|pages| - 1]) + pages[|pages| - 1].entries
  }

  lemma EntriesSnoc(pages: seq<Page>, p: Page)
    ensures Entries(pages + [p]) == Entries(pages) + p.entries
  {
    assert (pages + [p])[..|pages|] == pages;
  }

  // ---- Reading the pages

  function AtLeastOne(n: int): nat {
    if n < 1 then 1 else n
  }

  /** How many pages of `PAGE_LIMIT` a gap takes; an empty gap still takes one read. */
  function PagesNeeded(gap: nat): nat {
    if gap == 0 then 1 else (gap + PAGE_LIMIT - 1) / PAGE_LIMIT
  }

  /**
   Read from `anchor` to the head of the first page. Against an honest server it
   never sees a change, and returns exactly the log from the anchor to that head
   unless the gap is more than `MAX_PAGES` pages.
   */
  method TimelinePages(server: Server, firstRead: nat, anchor: Cursor, ghost logs: nat -> seq<Entry>)
    returns (r: Result<seq<Page>>, ghost seen: seq<Page>)
    ensures |seen| <= 100 && Traversed(server, firstRead, anchor, seen) && Ends(server, firstRead, anchor, seen, r)
    ensures HonestFrom(server, logs, firstRead, anchor) ==>
              var gap := |logs(firstRead)| - anchor.sequence;
              if gap <= 1_600
              then && r.Ok? && ReadsSlice(r.value, logs, firstRead, anchor.sequence)
                   && |r.value| == (if gap == 0 then 1 else (gap + 15) / 16)
              else r == Err(TimelineTooLarge)
  {
    hide QueryAfter, HeadExtends, HeadsExtend, Traversed, HonestFrom, Honest, Growing, ReadsSlice, Progress, PagedAt;
    hide Extends, Head;
    TraversedNone(server, firstRead, anchor);
    ghost var honest := HonestFrom(server, logs, firstRead, anchor);
    var cursor := anchor;
    var pages: seq<Page> := [];
    var head: Option<Cursor> := None;
    var observed: Option<Cursor> := None;
    if honest {
      HonestNow(server, logs, firstRead, anchor);
      StartOfTraversal(logs, firstRead, anchor);
    }
    for i := 0 to MAX_PAGES
      invariant |pages| == i && (i == 0 <==> head == None)
      invariant Traversed(server, firstRead, anchor, pages) && HeadsExtend(pages)
      invariant cursor == if i == 0 then anchor else pages[i - 1].next
      invariant i > 0 ==> head == Some(pages[0].head) && cursor.sequence < head.value.sequence
      invariant observed == if i == 0 then None else Some(pages[i - 1].head)
      invariant honest ==> Progress(pages, logs, firstRead, anchor.sequence, cursor, head, observed)
    {
      var remaining := if head == None then PAGE_LIMIT else head.value.sequence as int - cursor.sequence as int;
      if remaining < 0 {
        return Err(TimelineChanged), pages;
      }
      var limit := Min(PAGE_LIMIT, AtLeastOne(remaining));
      var answer := server(firstRead + i, Query(cursor, limit));
      if honest {
        ReadAnswer(server, pages, logs, firstRead, anchor.sequence, cursor, head, observed, limit);
        ReadOn(pages, answer.value, logs, firstRead, anchor.sequence, cursor, head, observed);
        PagesWithinBudget(|logs(firstRead)| - anchor.sequence);
      }
      QueryIs(anchor, pages, cursor, head, limit);
      seen := pages;
      if answer == None {
        return Err(TimelineInvalid), seen;
      }
      var page := answer.value;
      HeadsSnoc(pages, page);
      head := if head == None then Some(page.head) else head;
      if !HeadExtends(head.value, observed, page.head) {
        return Err(TimelineChanged), seen;
      }
      observed := Some(page.head);
      pages := pages + [page];
      cursor := page.next;
      if cursor.sequence > head.value.sequence {
        return Err(TimelineChanged), seen;
      }
      if cursor.sequence == head.value.sequence {
        if cursor.sha != head.value.sha {
          return Err(TimelineChanged), seen;
        }
        return Ok(pages), seen;
      }
      TraversedSnoc(server, firstRead, anchor, seen, page);
    }
    if honest {
      TooMany(pages, logs, firstRead, anchor.sequence, cursor, head, observed);
    }
    return Err(TimelineTooLarge), pages;
  }

  lemma TooMany(
    pages: seq<Page>, logs: nat -> seq<Entry>, firstRead: nat, from: nat,
    cursor: Cursor, head: Option<Cursor>, observed: Option<Cursor>)
    requires Progress(pages, logs, firstRead, from, cursor, head, observed) && |pages| == MAX_PAGES
    ensures |logs(firstRead)| - from > 1_600
  {
  }

  lemma TraversedNone(server: Server, firstRead: nat, anchor: Cursor)
    ensures Traversed(server, firstRead, anchor, []) && HeadsExtend([])
  {
  }

  lemma QueryIs(anchor: Cursor, pages: seq<Page>, cursor: Cursor, head: Option<Cursor>, limit: nat)
    requires pages == [] <==> head == None
    requires cursor == if pages == [] then anchor else pages[|pages| - 1].next
    requires pages != [] ==> head == Some(pages[0].head) && cursor.sequence < head.value.sequence
    requires limit == Limit(pages, cursor, head)
    ensures QueryAfter(anchor, pages) == Query(cursor, limit)
  {
  }

  lemma HonestNow(server: Server, logs: nat -> seq<Entry>, firstRead: nat, anchor: Cursor)
    requires HonestFrom(server, logs, firstRead, anchor)
    ensures Honest(server, logs) && Growing(logs)
    ensures anchor.sequence <= |logs(firstRead)| && anchor == Position(logs(firstRead), anchor.sequence)
  {
  }

  ghost predicate HonestFrom(server: Server, logs: nat -> seq<Entry>, firstRead: nat, anchor: Cursor) {
    && Honest(server, logs)
    && anchor.sequence <= |logs(firstRead)|
    && anchor == Position(logs(firstRead), anchor.sequence)
  }

  lemma StartOfTraversal(logs: nat -> seq<Entry>, firstRead: nat, anchor: Cursor)
    requires anchor.sequence <= |logs(firstRead)| && anchor == Position(logs(firstRead), anchor.sequence)
    ensures Progress([], logs, firstRead, anchor.sequence, anchor, None, None)
  {
  }

  /** The pages hold exactly the log from `from` to the head of the first read, in full pages. */
  ghost predicate ReadsSlice(pages: seq<Page>, logs: nat -> seq<Entry>, firstRead: nat, from: nat)
  {
    && pages != []
    && from <= |logs(firstRead)|
    && Entries(pages) == logs(firstRead)[from..]
    && Paged(pages, logs, firstRead, from)
  }

  /** Page `k` is what the honest server shows at read `firstRead + k`, up to the frozen head. */
  ghost predicate Paged(pages: seq<Page>, logs: nat -> seq<Entry>, firstRead: nat, from: nat) {
    forall k :: 0 <= k < |pages| ==> PagedAt(pages[k], k, logs, firstRead, from)
  }

  ghost predicate PagedAt(p: Page, k: nat, logs: nat -> seq<Entry>, firstRead: nat, from: nat) {
    var log := logs(firstRead);
    var start, end := from + PAGE_LIMIT * k, Min(from + PAGE_LIMIT * (k + 1), |log|);
    && start <= end
    && p.audience == Operator
    && p.after == Position(log, start)
    && p.entries == log[start..end]
    && p.next == Position(log, end)
    && p.head == Head(logs(firstRead + k))
    && p.hasMore == (end < |logs(firstRead + k)|)
  }

  /** The loop's state after reading `|pages|` pages, none of them the last. */
  ghost predicate Progress(
    pages: seq<Page>, logs: nat -> seq<Entry>, firstRead: nat, from: nat,
    cursor: Cursor, head: Option<Cursor>, observed: Option<Cursor>)
  {
    var log := logs(firstRead);
    var read := from + PAGE_LIMIT * |pages|;
    && read <= |log|
    && cursor == Position(log, read)
    && Entries(pages) == log[from..read]
    && Paged(pages, logs, firstRead, from)
    && (if pages == [] then head == None && observed == None
        else && read < |log|
             && head == Some(Head(log))
             && observed == Some(Head(logs(firstRead + |pages| - 1))))
  }

  /** A page cut from a log that has grown since its head was frozen is a page of the frozen log. */
  lemma PageOfPrefix(log: seq<Entry>, now: seq<Entry>, read: nat, limit: nat)
    requires log <= now && read + limit <= |log|
    ensures var p := PageAt(now, read, limit);
            && p.audience == Operator && p.after == Position(log, read) && p.entries == log[read..read + limit]
            && p.next == Position(log, read + limit) && p.hasMore == (read + limit < |now|)
  {
    assert now[read..read + limit] == log[read..read + limit];
  }

  /** The page an honest server gives in the middle of a traversal. */
  lemma HonestAnswer(
    server: Server, logs: nat -> seq<Entry>, firstRead: nat, k: nat, from: nat, limit: nat)
    requires Honest(server, logs)
    requires var log := logs(firstRead);
             var read := from + PAGE_LIMIT * k;
             && read <= |log| && 1 <= limit
             && limit == if k == 0 then PAGE_LIMIT else Min(PAGE_LIMIT, |log| - read)
    ensures var answer := server(firstRead + k, Query(Position(logs(firstRead), from + PAGE_LIMIT * k), limit));
            answer.Some? && PagedAt(answer.value, k, logs, firstRead, from)
  {
    var log, now := logs(firstRead), logs(firstRead + k);
    var read := from + PAGE_LIMIT * k;
    assert Later(firstRead, firstRead + k);
    PositionInPrefix(log, now, read);
    var answer := server(firstRead + k, Query(Position(now, read), limit));
    assert answer == Some(PageAt(now, read, limit));
    if read + limit <= |log| {
      PageOfPrefix(log, now, read, limit);
    } else {
      assert now == log;
    }
  }

  /** Heads seen one after another extend the frozen one and each other. */
  lemma HonestHeadsExtend(logs: nat -> seq<Entry>, firstRead: nat, k: nat)
    requires Growing(logs)
    ensures HeadExtends(
              Head(logs(firstRead)),
              if k == 0 then None else Some(Head(logs(firstRead + k - 1))),
              Head(logs(firstRead + k)))
  {
    assert Later(firstRead, firstRead + k);
    assert IsLog(logs(firstRead)) && IsLog(logs(firstRead + k));
    PrefixHead(logs(firstRead), logs(firstRead + k));
    if k > 0 {
      assert Later(firstRead + k - 1, firstRead + k);
      assert IsLog(logs(firstRead + k - 1));
      PrefixHead(logs(firstRead + k - 1), logs(firstRead + k));
    }
  }

  lemma PrefixHead(log: seq<Entry>, now: seq<Entry>)
    requires IsLog(log) && IsLog(now) && log <= now
    ensures Head(log).sequence <= Head(now).sequence
    ensures Head(log).sequence == Head(now).sequence ==> log == now
  {
    PositionSequence(log, |log|);
    PositionSequence(now, |now|);
  }

  lemma PagedSnoc(pages: seq<Page>, p: Page, logs: nat -> seq<Entry>, firstRead: nat, from: nat)
    requires Paged(pages, logs, firstRead, from) && PagedAt(p, |pages|, logs, firstRead, from)
    ensures Paged(pages + [p], logs, firstRead, from)
  {
  }

  lemma WholeTail<T>(s: seq<T>, from: nat)
    requires from <= |s|
    ensures s[from..|s|] == s[from..]
  {
  }

  lemma SplitSlice<T>(s: seq<T>, from: nat, mid: nat, end: nat)
    requires from <= mid <= end <= |s|
    ensures s[from..mid] + s[mid..end] == s[from..end]
  {
  }

  lemma EntriesGrow(pages: seq<Page>, p: Page, log: seq<Entry>, from: nat, read: nat, end: nat)
    requires from <= read <= end <= |log|
    requires Entries(pages) == log[from..read] && p.entries == log[read..end]
    ensures Entries(pages + [p]) == log[from..end]
  {
    EntriesSnoc(pages, p);
    SplitSlice(log, from, read, end);
  }

  /** Between pages, what remains to the frozen head is positive. */
  lemma RemainingExact(
    pages: seq<Page>, logs: nat -> seq<Entry>, firstRead: nat, from: nat,
    cursor: Cursor, head: Option<Cursor>, observed: Option<Cursor>)
    requires Growing(logs) && Progress(pages, logs, firstRead, from, cursor, head, observed)
    ensures var read := from + PAGE_LIMIT * |pages|;
            && cursor.sequence == read
            && (pages != [] ==> head.value.sequence == |logs(firstRead)| > read)
  {
    assert IsLog(logs(firstRead));
    PositionSequence(logs(firstRead), from + PAGE_LIMIT * |pages|);
    PositionSequence(logs(firstRead), |logs(firstRead)|);
  }

  /** The limit the loop asks for, given what remains. */
  function Limit(pages: seq<Page>, cursor: Cursor, head: Option<Cursor>): nat
    requires head.Some? ==> cursor.sequence <= head.value.sequence
  {
    var remaining := if head == None then PAGE_LIMIT else head.value.sequence - cursor.sequence;
    Min(PAGE_LIMIT, AtLeastOne(remaining))
  }

  /** One honest read: the page asked for, with a head that extends the others. */
  lemma ReadAnswer(
    server: Server, pages: seq<Page>, logs: nat -> seq<Entry>, firstRead: nat, from: nat,
    cursor: Cursor, head: Option<Cursor>, observed: Option<Cursor>, limit: nat)
    requires Honest(server, logs) && Progress(pages, logs, firstRead, from, cursor, head, observed)
    requires head.Some? ==> cursor.sequence <= head.value.sequence
    requires limit == Limit(pages, cursor, head)
    ensures var answer := server(firstRead + |pages|, Query(cursor, limit));
            && answer.Some?
            && PagedAt(answer.value, |pages|, logs, firstRead, from)
            && HeadExtends(if head == None then answer.value.head else head.value, observed, answer.value.head)
            && (if head == None then answer.value.head else head.value) == Head(logs(firstRead))
  {
    RemainingExact(pages, logs, firstRead, from, cursor, head, observed);
    HonestAnswer(server, logs, firstRead, |pages|, from, limit);
    HonestHeadsExtend(logs, firstRead, |pages|);
  }

  /** What a full page short of the frozen head holds. */
  lemma FullPage(page: Page, k: nat, logs: nat -> seq<Entry>, firstRead: nat, from: nat)
    requires PagedAt(page, k, logs, firstRead, from)
    requires from + PAGE_LIMIT * (k + 1) < |logs(firstRead)|
    ensures var log, read, end := logs(firstRead), from + PAGE_LIMIT * k, from + PAGE_LIMIT * (k + 1);
            page.entries == log[read..end] && page.next == Position(log, end) && page.head == Head(logs(firstRead + k))
  {
  }

  /** What the page that reaches the frozen head holds. */
  lemma LastPage(page: Page, k: nat, logs: nat -> seq<Entry>, firstRead: nat, from: nat)
    requires PagedAt(page, k, logs, firstRead, from)
    requires |logs(firstRead)| <= from + PAGE_LIMIT * (k + 1)
    ensures var log, read := logs(firstRead), from + PAGE_LIMIT * k;
            read <= |log| && page.entries == log[read..|log|] && page.next == Head(log)
  {
  }

  lemma LastPageCount(k: nat, gap: nat)
    requires PAGE_LIMIT * k <= gap <= PAGE_LIMIT * (k + 1) && (k > 0 ==> PAGE_LIMIT * k < gap)
    ensures k + 1 == PagesNeeded(gap)
  {
  }

  /** Where one honest read leaves the loop: at the frozen head, or in progress before it. */
  lemma ReadOn(
    pages: seq<Page>, page: Page, logs: nat -> seq<Entry>, firstRead: nat, from: nat,
    cursor: Cursor, head: Option<Cursor>, observed: Option<Cursor>)
    requires Growing(logs) && Progress(pages, logs, firstRead, from, cursor, head, observed)
    requires PagedAt(page, |pages|, logs, firstRead, from)
    ensures var log := logs(firstRead);
            if |log| <= from + PAGE_LIMIT * (|pages| + 1)
            then && page.next == Head(log)
                 && ReadsSlice(pages + [page], logs, firstRead, from)
                 && |pages| + 1 == PagesNeeded(|log| - from)
            else && page.next.sequence < Head(log).sequence
                 && Progress(pages + [page], logs, firstRead, from, page.next, Some(Head(log)), Some(page.head))
  {
    PagedSnoc(pages, page, logs, firstRead, from);
    if |logs(firstRead)| <= from + PAGE_LIMIT * (|pages| + 1) {
      ReadOnLast(pages, page, logs, firstRead, from, cursor, head, observed);
    } else {
      ReadOnMore(pages, page, logs, firstRead, from, cursor, head, observed);
    }
  }

  lemma ReadOnLast(
    pages: seq<Page>, page: Page, logs: nat -> seq<Entry>, firstRead: nat, from: nat,
    cursor: Cursor, head: Option<Cursor>, observed: Option<Cursor>)
    requires Progress(pages, logs, firstRead, from, cursor, head, observed)
    requires PagedAt(page, |pages|, logs, firstRead, from) && Paged(pages + [page], logs, firstRead, from)
    requires |logs(firstRead)| <= from + PAGE_LIMIT * (|pages| + 1)
    ensures page.next == Head(logs(firstRead))
    ensures ReadsSlice(pages + [page], logs, firstRead, from)
    ensures |pages| + 1 == PagesNeeded(|logs(firstRead)| - from)
  {
    LastPage(page, |pages|, logs, firstRead, from);
    var log := logs(firstRead);
    EntriesGrow(pages, page, log, from, from + PAGE_LIMIT * |pages|, |log|);
    WholeTail(log, from);
    LastPageCount(|pages|, |logs(firstRead)| - from);
  }

  lemma ReadOnMore(
    pages: seq<Page>, page: Page, logs: nat -> seq<Entry>, firstRead: nat, from: nat,
    cursor: Cursor, head: Option<Cursor>, observed: Option<Cursor>)
    requires Growing(logs) && Progress(pages, logs, firstRead, from, cursor, head, observed)
    requires PagedAt(page, |pages|, logs, firstRead, from) && Paged(pages + [page], logs, firstRead, from)
    requires from + PAGE_LIMIT * (|pages| + 1) < |logs(firstRead)|
    ensures page.next.sequence < Head(logs(firstRead)).sequence
    ensures Progress(
              pages + [page], logs, firstRead, from, page.next, Some(Head(logs(firstRead))), Some(page.head))
  {
    hide PagedAt, Paged, Growing, Entries, HeadExtends;
    var log := logs(firstRead);
    var end := from + PAGE_LIMIT * (|pages| + 1);
    FullPage(page, |pages|, logs, firstRead, from);
    LogNow(logs, firstRead);
    hide IsLog;
    PositionSequence(log, end);
    PositionSequence(log, |log|);
    EntriesGrow(pages, page, log, from, from + PAGE_LIMIT * |pages|, end);
  }

  lemma LogNow(logs: nat -> seq<Entry>, read: nat)
    requires Growing(logs)
    ensures IsLog(logs(read))
  {
  }

  lemma PagesWithinBudget(gap: nat)
    ensures PagesNeeded(gap) <= MAX_PAGES <==> gap <= 1_600
    ensures PagesNeeded(gap) == if gap == 0 then 1 else (gap + 15) / 16
  {
  }
}
