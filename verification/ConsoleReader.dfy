/**
 The web console's reader: from a cursor to the head, page by page, while the
 log may grow between any two reads.
 */
module ConsoleReader {
  import opened Option
  import opened Timeline
  import opened TimelineSummary

  const CONSOLE_PAGE_LIMIT: nat := 25
  const MAX_PAGE_READS: nat := 100
  const MAX_VISIBLE_ENTRIES: nat := 2_500

  datatype ReadError = Unavailable | HeadRegressed | HeadMismatch | ViewBound | PageBound

  datatype Batch = Batch(entries: seq<Entry>, cursor: Cursor, head: Cursor)

  datatype Read = Complete(batch: Batch) | Failed(error: ReadError)

  /** Against this server a reading from entry `from` on, begun at read `firstRead`, is honest. */
  ghost predicate HonestReading(
    server: Server, logs: nat -> seq<Entry>, firstRead: nat, start: Cursor, head: Cursor)
  {
    && Honest(server, logs)
    && start.sequence <= head.sequence <= |logs(firstRead)|
    && start == Position(logs(firstRead), start.sequence)
    && head == Position(logs(firstRead), head.sequence)
  }

  /** After some pages: the entries up to the cursor, and a head seen earlier. */
  ghost predicate Reading(log: seq<Entry>, from: nat, cursor: Cursor, head: Cursor, entries: seq<Entry>) {
    && IsLog(log)
    && from + |entries| <= |log| && head.sequence <= |log|
    && cursor == Position(log, from + |entries|)
    && head == Position(log, head.sequence)
    && entries == log[from..from + |entries|]
  }

  lemma ReadingGrows(
    log: seq<Entry>, now: seq<Entry>, from: nat, cursor: Cursor, head: Cursor, entries: seq<Entry>)
    requires Reading(log, from, cursor, head, entries) && IsLog(now) && log <= now
    ensures Reading(now, from, cursor, head, entries)
  {
    PositionInPrefix(log, now, from + |entries|);
    PositionInPrefix(log, now, head.sequence);
    assert now[from..from + |entries|] == log[from..from + |entries|];
  }

  /** One honest page: it passes the head test and adds the next entries. */
  lemma ReadingPage(log: seq<Entry>, from: nat, cursor: Cursor, head: Cursor, entries: seq<Entry>)
    requires Reading(log, from, cursor, head, entries)
    ensures var page := PageAt(log, from + |entries|, CONSOLE_PAGE_LIMIT);
            && head.sequence <= page.head.sequence
            && (head.sequence == page.head.sequence ==> head == page.head)
            && Reading(log, from, page.next, page.head, entries + page.entries)
            && (page.hasMore ==> |page.entries| == CONSOLE_PAGE_LIMIT && |log| > from + |entries + page.entries|)
            && (!page.hasMore ==> page.next == page.head && entries + page.entries == log[from..])
  {
    var page := PageAt(log, from + |entries|, CONSOLE_PAGE_LIMIT);
    var n := from + |entries|;
    var end := Min(n + CONSOLE_PAGE_LIMIT, |log|);
    HeadSequence(log);
    PositionSequence(log, head.sequence);
    SplitSlice(log, from, n, end);
    assert from + |entries + page.entries| == end;
    WholeTail(log, from);
  }

  /** Before read `n` of a reading: `n` full pages taken, and the log known to hold more. */
  ghost predicate Midway(
    logs: nat -> seq<Entry>, firstRead: nat, n: nat, from: nat,
    cursor: Cursor, head: Cursor, entries: seq<Entry>)
  {
    && Reading(logs(firstRead + n), from, cursor, head, entries)
    && |entries| == CONSOLE_PAGE_LIMIT * n
    && (n > 0 ==> |logs(firstRead + n - 1)| > from + |entries|)
  }

  /** One read of an honest server takes the reading on, or ends it at the head. */
  lemma ReadStep(
    server: Server, logs: nat -> seq<Entry>, firstRead: nat, n: nat, from: nat,
    cursor: Cursor, head: Cursor, entries: seq<Entry>)
    requires Honest(server, logs) && Midway(logs, firstRead, n, from, cursor, head, entries)
    ensures var answer := server(firstRead + n, Query(cursor, CONSOLE_PAGE_LIMIT));
            var log := logs(firstRead + n);
            && answer.Some?
            && (var page := answer.value;
                && head.sequence <= page.head.sequence
                && (head.sequence == page.head.sequence ==> head == page.head)
                && from + |entries + page.entries| <= |log|
                && (if page.hasMore
                    then Midway(logs, firstRead, n + 1, from, page.next, page.head, entries + page.entries)
                    else page.next == page.head == Head(log) && entries + page.entries == log[from..]))
  {
    var log, now := logs(firstRead + n), logs(firstRead + n + 1);
    assert server(firstRead + n, Query(cursor, CONSOLE_PAGE_LIMIT))
        == Some(PageAt(log, from + |entries|, CONSOLE_PAGE_LIMIT));
    var page := PageAt(log, from + |entries|, CONSOLE_PAGE_LIMIT);
    ReadingPage(log, from, cursor, head, entries);
    assert Later(firstRead + n, firstRead + n + 1);
    assert IsLog(now);
    ReadingGrows(log, now, from, page.next, page.head, entries + page.entries);
  }

  // ---- What a reading is, against any server

  /** Where the next page is read from, and the head it must extend. */
  function NextCursor(start: Cursor, pages: seq<Page>): Cursor {
    if pages == [] then start else pages[|pages| - 1].next
  }

  function LastHead(head: Cursor, pages: seq<Page>): Cursor {
    if pages == [] then head else pages[|pages| - 1].head
  }

  /** Page `k` answers the query after the ones before it; its head extends theirs, and more follows. */
  ghost predicate ThroughAt(server: Server, firstRead: nat, start: Cursor, head: Cursor, pages: seq<Page>, k: nat)
    requires k < |pages|
  {
    && server(firstRead + k, Query(NextCursor(start, pages[..k]), 25)) == Some(pages[k])
    && Extends(LastHead(head, pages[..k]), pages[k].head)
    && pages[k].hasMore
  }

  /** And all of them fit into a view. */
  ghost predicate ReadThrough(
    server: Server, firstRead: nat, start: Cursor, head: Cursor, existing: nat, pages: seq<Page>)
  {
    && (forall k: nat :: k < |pages| ==> ThroughAt(server, firstRead, start, head, pages, k))
    && (pages != [] ==> existing + |Entries(pages)| <= 2_500)
  }

  /** How a reading ends after the pages `seen`: by the next answer, or after a hundred. */
  ghost predicate ReadEnds(
    server: Server, firstRead: nat, start: Cursor, head: Cursor, existing: nat, seen: seq<Page>, r: Read)
  {
    if |seen| == 100 then r == Failed(PageBound)
    else
      match server(firstRead + |seen|, Query(NextCursor(start, seen), 25))
      case None => r == Failed(Unavailable)
      case Some(page) =>
        if !Extends(LastHead(head, seen), page.head) then r == Failed(HeadRegressed)
        else if existing + |Entries(seen)| + |page.entries| > 2_500 then r == Failed(ViewBound)
        else if page.hasMore then false
        else if page.next != page.head then r == Failed(HeadMismatch)
        else r == Complete(Batch(Entries(seen) + page.entries, page.next, page.head))
  }

  lemma ThroughSnoc(
    server: Server, firstRead: nat, start: Cursor, head: Cursor, existing: nat, pages: seq<Page>, page: Page)
    requires ReadThrough(server, firstRead, start, head, existing, pages)
    requires server(firstRead + |pages|, Query(NextCursor(start, pages), 25)) == Some(page)
    requires Extends(LastHead(head, pages), page.head) && page.hasMore
    requires existing + |Entries(pages)| + |page.entries| <= 2_500
    ensures ReadThrough(server, firstRead, start, head, existing, pages + [page])
    ensures Entries(pages + [page]) == Entries(pages) + page.entries
    ensures NextCursor(start, pages + [page]) == page.next && LastHead(head, pages + [page]) == page.head
  {
    hide ThroughAt, Entries;
    EntriesSnoc(pages, page);
    var more := pages + [page];
    forall k: nat | k < |more|
      ensures ThroughAt(server, firstRead, start, head, more, k)
    {
      ThroughKept(server, firstRead, start, head, pages, page, k);
    }
  }

  lemma ThroughKept(
    server: Server, firstRead: nat, start: Cursor, head: Cursor, pages: seq<Page>, page: Page, k: nat)
    requires k <= |pages|
    ensures ThroughAt(server, firstRead, start, head, pages + [page], k)
         == if k < |pages| then ThroughAt(server, firstRead, start, head, pages, k)
            else && server(firstRead + k, Query(NextCursor(start, pages), 25)) == Some(page)
                 && Extends(LastHead(head, pages), page.head) && page.hasMore
  {
    hide NextCursor, LastHead, Extends;
    var more := pages + [page];
    assert more[..k] == pages[..k];
    assert pages[..|pages|] == pages;
  }

  /**
   Read to the head. Against an honest server what it returns is all the log held
   at the last read, and it fails only when that is more than a view may show.
   */
  method ReadToHead(
    server: Server, firstRead: nat, start: Cursor, expectedHead: Cursor, existing: nat,
    ghost logs: nat -> seq<Entry>)
    returns (r: Read, ghost lastRead: nat, ghost seen: seq<Page>)
    ensures |seen| <= 100 && ReadThrough(server, firstRead, start, expectedHead, existing, seen)
    ensures ReadEnds(server, firstRead, start, expectedHead, existing, seen, r)
    ensures lastRead == firstRead + if |seen| == 100 then 99 else |seen|
    ensures r.Complete? ==> existing + |r.batch.entries| <= MAX_VISIBLE_ENTRIES
    ensures HonestReading(server, logs, firstRead, start, expectedHead) ==>
              ReadsAll(r, logs(lastRead), start.sequence, existing)
  {
    var cursor, head := start, expectedHead;
    var entries: seq<Entry> := [];
    lastRead := firstRead;
    r, seen := Failed(PageBound), [];
    hide ReadThrough, Entries, HonestReading, ReadsAll, Extends, NextCursor, LastHead;
    NothingRead(server, firstRead, start, expectedHead, existing);
    if HonestReading(server, logs, firstRead, start, expectedHead) {
      HonestOutcomes(server, logs, firstRead, start, expectedHead, existing);
    }
    for n := 0 to MAX_PAGE_READS
      invariant lastRead == firstRead + if n == 0 then 0 else n - 1
      invariant n > 0 ==> existing + |entries| <= MAX_VISIBLE_ENTRIES
      invariant |seen| == n && ReadThrough(server, firstRead, start, expectedHead, existing, seen)
      invariant cursor == NextCursor(start, seen) && head == LastHead(expectedHead, seen) && entries == Entries(seen)
    {
      lastRead := firstRead + n;
      var answer := server(firstRead + n, Query(cursor, CONSOLE_PAGE_LIMIT));
      if answer == None {
        return Failed(Unavailable), lastRead, seen;
      }
      var page := answer.value;
      HeadFollows(head, page.head);
      if page.head.sequence < head.sequence || (page.head.sequence == head.sequence && page.head.sha != head.sha) {
        return Failed(HeadRegressed), lastRead, seen;
      }
      if existing + |entries| + |page.entries| > MAX_VISIBLE_ENTRIES {
        return Failed(ViewBound), lastRead, seen;
      }
      entries := entries + page.entries;
      cursor := page.next;
      head := page.head;
      if !page.hasMore {
        if cursor != head {
          return Failed(HeadMismatch), lastRead, seen;
        }
        return Complete(Batch(entries, cursor, head)), lastRead, seen;
      }
      ThroughSnoc(server, firstRead, start, expectedHead, existing, seen, page);
      seen := seen + [page];
    }
  }

  /** What was read of an honest server by the time of page `n`. */
  lemma {:induction false} HonestMidway(
    server: Server, logs: nat -> seq<Entry>, firstRead: nat, start: Cursor, head: Cursor, existing: nat,
    seen: seq<Page>, n: nat)
    requires HonestReading(server, logs, firstRead, start, head) && n <= |seen|
    requires ReadThrough(server, firstRead, start, head, existing, seen)
    ensures Midway(
              logs, firstRead, n, start.sequence,
              NextCursor(start, seen[..n]), LastHead(head, seen[..n]), Entries(seen[..n]))
  {
    hide Midway, Entries, Honest, Extends;
    NothingRead(server, firstRead, start, head, existing);
    if n == 0 {
      StartReading(server, logs, firstRead, start, head);
    } else {
      var m := n - 1;
      HonestMidway(server, logs, firstRead, start, head, existing, seen, m);
      assert ThroughAt(server, firstRead, start, head, seen, m);
      ReadStep(
        server, logs, firstRead, m, start.sequence,
        NextCursor(start, seen[..m]), LastHead(head, seen[..m]), Entries(seen[..m]));
      EntriesSnoc(seen[..m], seen[m]);
      assert seen[..n] == seen[..m] + [seen[m]];
    }
  }

  /** However a reading of an honest server ends, it returns all there was, or there was too much. */
  lemma HonestOutcome(
    server: Server, logs: nat -> seq<Entry>, firstRead: nat, start: Cursor, head: Cursor, existing: nat,
    seen: seq<Page>, r: Read)
    requires HonestReading(server, logs, firstRead, start, head) && |seen| <= 100
    requires ReadThrough(server, firstRead, start, head, existing, seen)
    requires ReadEnds(server, firstRead, start, head, existing, seen, r)
    ensures ReadsAll(r, logs(firstRead + if |seen| == 100 then 99 else |seen|), start.sequence, existing)
  {
    hide Entries, ReadThrough, Honest, NextCursor, LastHead;
    var n := |seen|;
    HonestMidway(server, logs, firstRead, start, head, existing, seen, n);
    assert seen[..n] == seen;
    var cursor, last, entries := NextCursor(start, seen), LastHead(head, seen), Entries(seen);
    if n == 100 {
      TooManyPages(logs, firstRead, start.sequence, cursor, last, entries, existing);
    } else {
      hide Midway, ReadsAll;
      ReadStep(server, logs, firstRead, n, start.sequence, cursor, last, entries);
      EndsHonestly(
        logs, firstRead, n, start.sequence, cursor, last, entries, existing,
        server(firstRead + n, Query(cursor, CONSOLE_PAGE_LIMIT)));
    }
  }

  lemma HonestOutcomes(
    server: Server, logs: nat -> seq<Entry>, firstRead: nat, start: Cursor, head: Cursor, existing: nat)
    requires HonestReading(server, logs, firstRead, start, head)
    ensures forall seen, r ::
              && |seen| <= 100 && ReadThrough(server, firstRead, start, head, existing, seen)
              && ReadEnds(server, firstRead, start, head, existing, seen, r) ==>
                ReadsAll(r, logs(firstRead + if |seen| == 100 then 99 else |seen|), start.sequence, existing)
  {
    hide HonestReading, ReadThrough, ReadEnds, ReadsAll;
    forall seen, r |
      && |seen| <= 100 && ReadThrough(server, firstRead, start, head, existing, seen)
      && ReadEnds(server, firstRead, start, head, existing, seen, r)
      ensures ReadsAll(r, logs(firstRead + if |seen| == 100 then 99 else |seen|), start.sequence, existing)
    {
      HonestOutcome(server, logs, firstRead, start, head, existing, seen, r);
    }
  }

  lemma NothingRead(server: Server, firstRead: nat, start: Cursor, head: Cursor, existing: nat)
    ensures ReadThrough(server, firstRead, start, head, existing, []) && Entries([]) == []
    ensures NextCursor(start, []) == start && LastHead(head, []) == head
  {
  }

  lemma HeadFollows(head: Cursor, next: Cursor)
    ensures Extends(head, next)
       <==> !(next.sequence < head.sequence || (next.sequence == head.sequence && next.sha != head.sha))
  {
  }

  /** An honest answer ends the reading as it must, unless more follows. */
  lemma EndsHonestly(
    logs: nat -> seq<Entry>, firstRead: nat, n: nat, from: nat, cursor: Cursor, head: Cursor, entries: seq<Entry>,
    existing: nat, answer: Option<Page>)
    requires answer.Some? && var page, log := answer.value, logs(firstRead + n);
             && from + |entries + page.entries| <= |log|
             && (!page.hasMore ==> page.next == page.head == Head(log) && entries + page.entries == log[from..])
    ensures var page, log := answer.value, logs(firstRead + n);
            && (existing + |entries| + |page.entries| > 2_500 ==> ReadsAll(Failed(ViewBound), log, from, existing))
            && (!page.hasMore ==>
                  && page.next == page.head
                  && ReadsAll(Complete(Batch(entries + page.entries, page.next, page.head)), log, from, existing))
  {
  }

  lemma TooManyPages(
    logs: nat -> seq<Entry>, firstRead: nat, from: nat, cursor: Cursor, head: Cursor, entries: seq<Entry>,
    existing: nat)
    requires Midway(logs, firstRead, 100, from, cursor, head, entries)
    ensures ReadsAll(Failed(PageBound), logs(firstRead + 99), from, existing)
  {
  }

  /** What an honest reading returns: everything to the head, or too much for the view. */
  ghost predicate ReadsAll(r: Read, log: seq<Entry>, from: nat, existing: nat) {
    match r
    case Complete(b) =>
      b.cursor == b.head == Head(log) && from <= |log| && b.entries == log[from..]
    case Failed(error) =>
      error in {PageBound, ViewBound} && existing + |log| - from > 2_500
  }

  lemma StartReading(server: Server, logs: nat -> seq<Entry>, firstRead: nat, start: Cursor, head: Cursor)
    requires HonestReading(server, logs, firstRead, start, head)
    ensures Midway(logs, firstRead, 0, start.sequence, start, head, [])
  {
    assert IsLog(logs(firstRead));
  }
}
