/**
 The raw export that follows a paged traversal, and the whole reading of the
 timeline evidence: capture an anchor, read the pages, check them, then export
 the raw records one at a time from just before the earliest tracked entry.
 */
module RawTimeline {
  import opened Option
  import opened Timeline
  import opened TimelineSummary

  /** One answer of the raw-export endpoint. */
  datatype Export = Export(entries: seq<Entry>, next: Cursor, head: Cursor)

  type Exporter = (nat, Query) -> Option<Export>

  /** The export an honest server gives for a query at a position of its log. */
  function ExportAt(log: seq<Entry>, n: nat, limit: nat): Export
    requires n <= |log|
  {
    var end := Min(n + limit, |log|);
    Export(log[n..end], Position(log, end), Head(log))
  }

  ghost predicate HonestExporter(exporter: Exporter, logs: nat -> seq<Entry>) {
    && Growing(logs)
    && forall read: nat, n: nat, limit: nat {:trigger exporter(read, Query(Position(logs(read), n), limit))} ::
         n <= |logs(read)| && limit >= 1 ==>
           exporter(read, Query(Position(logs(read), n), limit)) == Some(ExportAt(logs(read), n, limit))
  }

  // ---- Where the export starts and stops

  function Tracked(entries: seq<Entry>, roots: set<string>): (r: seq<Entry>)
    ensures forall e :: e in r <==> e in entries && e.rootId in roots
  {
    if entries == [] then []
    else
      var n := |entries| - 1;
      var before := Tracked(entries[..n], roots);
      assert entries == entries[..n] + [entries[n]];
      if entries[n].rootId in roots then before + [entries[n]] else before
  }

  function Earliest(entries: seq<Entry>): (r: Entry)
    requires entries != []
    ensures r in entries && forall e :: e in entries ==> r.sequence <= e.sequence
  {
    var n := |entries| - 1;
    if n == 0 then entries[0]
    else
      var r := Earliest(entries[..n]);
      assert entries == entries[..n] + [entries[n]];
      if entries[n].sequence < r.sequence then entries[n] else r
  }

  datatype Bounds = Bounds(start: Cursor, head: Cursor)

  function RawBoundary(pages: seq<Page>, roots: set<string>): Result<Bounds> {
    if pages == [] || roots == {} then Err(TimelineInvalid)
    else
      var entries := Tracked(Entries(pages), roots);
      if entries == [] then Err(TimelineInvalid)
      else
        var earliest := Earliest(entries);
        var sequence := earliest.sequence as int - 1;
        if sequence < 0 || (sequence == 0) != (earliest.previous == None) then Err(TimelineInvalid)
        else if pages[0].head.sequence < earliest.sequence then Err(TimelineInvalid)
        else Ok(Bounds(Cursor(sequence, earliest.previous), pages[0].head))
  }

  /** Whatever the pages are: there is a start exactly when the earliest tracked entry can have one before the head. */
  lemma BoundaryMeans(pages: seq<Page>, roots: set<string>)
    ensures RawBoundary(pages, roots).Ok?
       <==> && pages != [] && roots != {} && Tracked(Entries(pages), roots) != []
            && var e := Earliest(Tracked(Entries(pages), roots));
               && 1 <= e.sequence <= pages[0].head.sequence
               && (e.sequence == 1 <==> e.previous == None)
    ensures RawBoundary(pages, roots).Ok? ==>
              var e := Earliest(Tracked(Entries(pages), roots));
              RawBoundary(pages, roots).value == Bounds(Cursor(e.sequence - 1, e.previous), pages[0].head)
    ensures RawBoundary(pages, roots).Err? ==> RawBoundary(pages, roots).error == TimelineInvalid
  {
    hide Entries, Tracked, Earliest;
  }

  /** Entry `first` is the earliest of `log[from..]` with a tracked root. */
  ghost predicate FirstTracked(log: seq<Entry>, from: nat, roots: set<string>, first: nat) {
    && from <= first < |log|
    && log[first].rootId in roots
    && forall i :: from <= i < first ==> log[i].rootId !in roots
  }

  /**
   On the pages of an honest traversal the boundary is the position just before
   the earliest tracked entry, and exists exactly when there is such an entry.
   */
  lemma BoundaryExact(pages: seq<Page>, logs: nat -> seq<Entry>, firstRead: nat, from: nat, roots: set<string>)
    requires Growing(logs) && ReadsSlice(pages, logs, firstRead, from)
    ensures var log := logs(firstRead);
            match RawBoundary(pages, roots)
            case Ok(b) => FirstTracked(log, from, roots, b.start.sequence)
                          && b == Bounds(Position(log, b.start.sequence), Head(log))
            case Err(e) => e == TimelineInvalid && forall i :: from <= i < |log| ==> log[i].rootId !in roots
  {
    hide Tracked, Earliest, ReadsSlice, Growing, Entries, IsLog, Head, Position;
    SliceFacts(pages, logs, firstRead, from);
    var log := logs(firstRead);
    var slice := log[from..];
    var entries := Tracked(slice, roots);
    if entries == [] {
      forall i | from <= i < |log|
        ensures log[i].rootId !in roots
      {
        assert log[i] == slice[i - from] && log[i] !in entries;
      }
    } else {
      EarliestInLog(log, from, roots, entries);
      HeadSequence(log);
    }
  }

  lemma SliceFacts(pages: seq<Page>, logs: nat -> seq<Entry>, firstRead: nat, from: nat)
    requires Growing(logs) && ReadsSlice(pages, logs, firstRead, from)
    ensures pages != [] && IsLog(logs(firstRead)) && from <= |logs(firstRead)|
    ensures Entries(pages) == logs(firstRead)[from..] && pages[0].head == Head(logs(firstRead))
  {
    assert IsLog(logs(firstRead));
    assert PagedAt(pages[0], 0, logs, firstRead, from);
  }

  lemma EarliestInLog(log: seq<Entry>, from: nat, roots: set<string>, entries: seq<Entry>)
    requires IsLog(log) && from <= |log| && entries == Tracked(log[from..], roots) && entries != []
    ensures var first := Earliest(entries).sequence as int - 1;
            && first >= 0 && FirstTracked(log, from, roots, first)
            && Cursor(first, Earliest(entries).previous) == Position(log, first)
            && ((first == 0) == (Earliest(entries).previous == None))
  {
    hide Tracked, Earliest;
    var slice := log[from..];
    var earliest := Earliest(entries);
    assert earliest in slice;
    var k :| 0 <= k < |slice| && slice[k] == earliest;
    assert log[from + k] == earliest;
    assert LinkedAt(ORIGIN, log, from + k);
    PositionSequence(log, from + k);
    forall i | from <= i < from + k
      ensures log[i].rootId !in roots
    {
      assert LinkedAt(ORIGIN, log, i);
      assert log[i] == slice[i - from];
    }
  }

  // ---- Exporting

  /** The exporter's setting: pages read honestly before, from the same growing log. */
  ghost predicate Exporting(
    exporter: Exporter, logs: nat -> seq<Entry>, firstRead: nat,
    pages: seq<Page>, pagesRead: nat, from: nat)
  {
    && HonestExporter(exporter, logs)
    && ReadsSlice(pages, logs, pagesRead, from)
    && pagesRead <= firstRead
  }

  /** What an honest export gives: all entries from the boundary to the frozen head, or too many. */
  ghost predicate ExportsSlice(r: Result<seq<Entry>>, log: seq<Entry>, start: nat)
  {
    && start <= |log|
    && r == if |log| - start <= 1_000 then Ok(log[start..]) else Err(TimelineTooLarge)
  }

  /** The state before read `i`: exactly `i` entries from the boundary, short of the frozen head. */
  ghost predicate ExportProgress(
    logs: nat -> seq<Entry>, log: seq<Entry>, firstRead: nat, start: nat, i: nat,
    cursor: Cursor, items: seq<Entry>, observed: Option<Cursor>)
  {
    && start + i < |log|
    && cursor == Position(log, start + i)
    && items == log[start..start + i]
    && observed == if i == 0 then None else Some(Head(logs(firstRead + i - 1)))
  }

  // ---- What an export is, against any exporter

  /** The query after these exports: one entry from where the last one ended. */
  function ExportQuery(start: Cursor, exports: seq<Export>): Query {
    Query(if exports == [] then start else exports[|exports| - 1].next, 1)
  }

  function ExportedEntries(exports: seq<Export>): seq<Entry> {
    if exports == [] then []
    else ExportedEntries(exports[..|exports| - 1]) + exports[|exports| - 1].entries
  }

  /** Each head extends the frozen one and the one before. */
  ghost predicate HeadsFollow(head: Cursor, exports: seq<Export>) {
    && (forall k :: 0 <= k < |exports| ==> Extends(head, exports[k].head))
    && forall k :: 0 < k < |exports| ==> Extends(exports[k - 1].head, exports[k].head)
  }

  /** The exports are the exporter's answers, one query after the other, and all stop short of the frozen head. */
  ghost predicate Exported(exporter: Exporter, firstRead: nat, bounds: Bounds, exports: seq<Export>) {
    && (forall k :: 0 <= k < |exports| ==>
          exporter(firstRead + k, ExportQuery(bounds.start, exports[..k])) == Some(exports[k]))
    && HeadsFollow(bounds.head, exports)
    && forall k :: 0 <= k < |exports| ==> exports[k].next.sequence < bounds.head.sequence
  }

  /** How an export ends after `seen`: by the next answer, or after a thousand. */
  ghost predicate ExportEnds(
    exporter: Exporter, firstRead: nat, bounds: Bounds, seen: seq<Export>, r: Result<seq<Entry>>)
  {
    if |seen| == 1_000 then r == Err(TimelineTooLarge)
    else
      match exporter(firstRead + |seen|, ExportQuery(bounds.start, seen))
      case None => r == Err(TimelineInvalid)
      case Some(page) =>
        var exports := seen + [page];
        && (r == if HeadsFollow(bounds.head, exports) && page.next == bounds.head then Ok(ExportedEntries(exports))
                 else Err(TimelineChanged))
        && !(HeadsFollow(bounds.head, exports) && page.next.sequence < bounds.head.sequence)
  }

  /** Whatever the exporter answers, an export has one outcome. */
  lemma OneExport(
    exporter: Exporter, firstRead: nat, bounds: Bounds,
    seen: seq<Export>, r: Result<seq<Entry>>, other: seq<Export>, s: Result<seq<Entry>>)
    requires |seen| <= 1_000 && Exported(exporter, firstRead, bounds, seen)
    requires |other| <= 1_000 && Exported(exporter, firstRead, bounds, other)
    requires ExportEnds(exporter, firstRead, bounds, seen, r) && ExportEnds(exporter, firstRead, bounds, other, s)
    ensures seen == other && r == s
  {
    hide ExportQuery, HeadsFollow, Exported, ExportedEntries;
    if |seen| <= |other| {
      SameExports(exporter, firstRead, bounds, seen, other, |seen|);
      ExportOnwards(exporter, firstRead, bounds, seen, r, other);
    } else {
      SameExports(exporter, firstRead, bounds, other, seen, |other|);
      ExportOnwards(exporter, firstRead, bounds, other, s, seen);
    }
  }

  lemma {:induction false} SameExports(
    exporter: Exporter, firstRead: nat, bounds: Bounds, seen: seq<Export>, other: seq<Export>, n: nat)
    requires Exported(exporter, firstRead, bounds, seen) && Exported(exporter, firstRead, bounds, other)
    requires n <= |seen| && n <= |other|
    ensures seen[..n] == other[..n]
  {
    hide HeadsFollow, ExportQuery, ExportedEntries;
    if n > 0 {
      SameExports(exporter, firstRead, bounds, seen, other, n - 1);
      assert exporter(firstRead + (n - 1), ExportQuery(bounds.start, seen[..n - 1])) == Some(seen[n - 1]);
      assert exporter(firstRead + (n - 1), ExportQuery(bounds.start, other[..n - 1])) == Some(other[n - 1]);
      assert seen[..n] == seen[..n - 1] + [seen[n - 1]] && other[..n] == other[..n - 1] + [other[n - 1]];
    }
  }

  /** An export that has ended does not go on. */
  lemma ExportOnwards(
    exporter: Exporter, firstRead: nat, bounds: Bounds, seen: seq<Export>, r: Result<seq<Entry>>, longer: seq<Export>)
    requires ExportEnds(exporter, firstRead, bounds, seen, r) && Exported(exporter, firstRead, bounds, longer)
    requires |longer| <= 1_000 && seen <= longer
    ensures seen == longer
  {
    hide ExportQuery, HeadsFollow, ExportedEntries;
    assert seen == longer[..|seen|];
    if |seen| < |longer| {
      ExportGoesOn(exporter, firstRead, bounds, longer, |seen|);
    }
  }

  lemma ExportGoesOn(exporter: Exporter, firstRead: nat, bounds: Bounds, exports: seq<Export>, n: nat)
    requires Exported(exporter, firstRead, bounds, exports) && n < |exports|
    ensures exporter(firstRead + n, ExportQuery(bounds.start, exports[..n])) == Some(exports[n])
    ensures HeadsFollow(bounds.head, exports[..n] + [exports[n]])
    ensures exports[n].next.sequence < bounds.head.sequence
  {
    hide ExportQuery, Extends;
    var more := exports[..n] + [exports[n]];
    forall k | 0 <= k < |more|
      ensures Extends(bounds.head, more[k].head) && (k > 0 ==> Extends(more[k - 1].head, more[k].head))
    {
      assert more[k] == exports[k] && (k > 0 ==> more[k - 1] == exports[k - 1]);
    }
  }

  /** One more answer, short of the frozen head, carries the export on. */
  lemma ExportedSnoc(exporter: Exporter, firstRead: nat, bounds: Bounds, exports: seq<Export>, page: Export)
    requires Exported(exporter, firstRead, bounds, exports)
    requires exporter(firstRead + |exports|, ExportQuery(bounds.start, exports)) == Some(page)
    requires HeadsFollow(bounds.head, exports + [page]) && page.next.sequence < bounds.head.sequence
    ensures Exported(exporter, firstRead, bounds, exports + [page])
  {
    hide ExportQuery, HeadsFollow;
    var more := exports + [page];
    forall k | 0 <= k < |more|
      ensures exporter(firstRead + k, ExportQuery(bounds.start, more[..k])) == Some(more[k])
      ensures more[k].next.sequence < bounds.head.sequence
    {
      if k < |exports| {
        assert more[..k] == exports[..k];
        assert exporter(firstRead + k, ExportQuery(bounds.start, exports[..k])) == Some(exports[k]);
      } else {
        assert more[..k] == exports;
      }
    }
  }

  lemma FollowSnoc(head: Cursor, exports: seq<Export>, page: Export)
    requires HeadsFollow(head, exports)
    ensures HeadsFollow(head, exports + [page])
       <==> HeadExtends(head, if exports == [] then None else Some(exports[|exports| - 1].head), page.head)
    ensures ExportedEntries(exports + [page]) == ExportedEntries(exports) + page.entries
  {
    var more := exports + [page];
    assert more[..|exports|] == exports;
    HeadExtendsMeans(head, if exports == [] then None else Some(exports[|exports| - 1].head), page.head);
    if HeadExtends(head, if exports == [] then None else Some(exports[|exports| - 1].head), page.head) {
      forall k | 0 <= k < |more|
        ensures Extends(head, more[k].head) && (k > 0 ==> Extends(more[k - 1].head, more[k].head))
      {
        assert k < |exports| ==> more[k] == exports[k] && (k > 0 ==> more[k - 1] == exports[k - 1]);
      }
    }
    if HeadsFollow(head, more) {
      assert more[|exports|] == page && (exports != [] ==> more[|exports| - 1] == exports[|exports| - 1]);
      assert Extends(head, more[|exports|].head);
    }
  }

  method RawTimeline(
    exporter: Exporter, firstRead: nat, pages: seq<Page>, roots: set<string>,
    ghost logs: nat -> seq<Entry>, ghost pagesRead: nat, ghost from: nat)
    returns (r: Result<seq<Entry>>, ghost seen: seq<Export>)
    ensures match RawBoundary(pages, roots)
            case Err(e) => r == Err(e)
            case Ok(b) =>
              && |seen| <= 1_000 && Exported(exporter, firstRead, b, seen)
              && ExportEnds(exporter, firstRead, b, seen, r)
    ensures Exporting(exporter, logs, firstRead, pages, pagesRead, from) ==>
              match RawBoundary(pages, roots)
              case Ok(b) => ExportsSlice(r, logs(pagesRead), b.start.sequence)
              case Err(e) => r == Err(e)
  {
    var bounds := RawBoundary(pages, roots);
    if bounds.Err? {
      return Err(bounds.error), [];
    }
    if Exporting(exporter, logs, firstRead, pages, pagesRead, from) {
      BoundaryExact(pages, logs, pagesRead, from, roots);
    }
    hide RawBoundary, ExportEnds, Exported, ReadsSlice, Growing, HonestExporter;
    r, seen := ExportBetween(exporter, firstRead, bounds.value, logs, pagesRead);
  }

  /** The export loop: one entry at a time from the boundary to the frozen head. */
  method ExportBetween(
    exporter: Exporter, firstRead: nat, bounds: Bounds, ghost logs: nat -> seq<Entry>, ghost pagesRead: nat)
    returns (r: Result<seq<Entry>>, ghost seen: seq<Export>)
    ensures |seen| <= 1_000 && Exported(exporter, firstRead, bounds, seen)
    ensures ExportEnds(exporter, firstRead, bounds, seen, r)
    ensures HonestExporter(exporter, logs) && pagesRead <= firstRead && Within(bounds, logs(pagesRead)) ==>
              ExportsSlice(r, logs(pagesRead), bounds.start.sequence)
  {
    ghost var honest := HonestExporter(exporter, logs) && pagesRead <= firstRead && Within(bounds, logs(pagesRead));
    ghost var log, start := logs(pagesRead), bounds.start.sequence;
    var cursor, head := bounds.start, bounds.head;
    var items: seq<Entry> := [];
    var observed: Option<Cursor> := None;
    seen := [];
    hide HeadExtends, HeadsFollow, Exported, ExportQuery, Extends, ExportedEntries, Growing, HonestExporter, IsLog;
    NothingExported(exporter, firstRead, bounds);
    for i := 0 to MAX_RAW_READS
      invariant |seen| == i && Exported(exporter, firstRead, bounds, seen) && HeadsFollow(head, seen)
      invariant Query(cursor, 1) == ExportQuery(bounds.start, seen) && items == ExportedEntries(seen)
      invariant observed == if i == 0 then None else Some(seen[i - 1].head)
      invariant honest ==> ExportProgress(logs, log, firstRead, start, i, cursor, items, observed)
    {
      var answer := exporter(firstRead + i, Query(cursor, 1));
      if honest {
        ExportStep(exporter, logs, pagesRead, firstRead, start, i, cursor, items, observed);
      }
      if answer == None {
        return Err(TimelineInvalid), seen;
      }
      var page := answer.value;
      FollowSnoc(head, seen, page);
      if !HeadExtends(head, observed, page.head) {
        return Err(TimelineChanged), seen;
      }
      observed := Some(page.head);
      items := items + page.entries;
      cursor := page.next;
      if cursor.sequence > head.sequence {
        return Err(TimelineChanged), seen;
      }
      if cursor.sequence == head.sequence {
        if cursor.sha != head.sha {
          return Err(TimelineChanged), seen;
        }
        return Ok(items), seen;
      }
      ExportedSnoc(exporter, firstRead, bounds, seen, page);
      QueryMoves(bounds.start, seen, page);
      seen := seen + [page];
    }
    return Err(TimelineTooLarge), seen;
  }

  lemma NothingExported(exporter: Exporter, firstRead: nat, bounds: Bounds)
    ensures Exported(exporter, firstRead, bounds, []) && HeadsFollow(bounds.head, [])
    ensures ExportQuery(bounds.start, []) == Query(bounds.start, 1) && ExportedEntries([]) == []
  {
  }

  lemma QueryMoves(start: Cursor, exports: seq<Export>, page: Export)
    ensures ExportQuery(start, exports + [page]) == Query(page.next, 1)
  {
  }

  /** The bounds are a position of the log short of its head, and its head. */
  ghost predicate Within(bounds: Bounds, log: seq<Entry>) {
    && bounds.start.sequence < |log|
    && bounds == Bounds(Position(log, bounds.start.sequence), Head(log))
  }

  /** One honest export step reads one more entry, and the frozen head is reached with the last. */
  lemma ExportStep(
    exporter: Exporter, logs: nat -> seq<Entry>, pagesRead: nat, firstRead: nat, start: nat, i: nat,
    cursor: Cursor, items: seq<Entry>, observed: Option<Cursor>)
    requires HonestExporter(exporter, logs) && pagesRead <= firstRead
    requires ExportProgress(logs, logs(pagesRead), firstRead, start, i, cursor, items, observed)
    ensures var answer := exporter(firstRead + i, Query(cursor, 1));
            var log := logs(pagesRead);
            && answer.Some?
            && HeadExtends(Head(log), observed, answer.value.head)
            && answer.value.next == Position(log, start + i + 1)
            && answer.value.next.sequence == start + i + 1 <= Head(log).sequence == |log|
            && (if start + i + 1 < |log|
                then ExportProgress(
                    logs, log, firstRead, start, i + 1, answer.value.next,
                    items + answer.value.entries, Some(answer.value.head))
                else answer.value.next == Head(log) && items + answer.value.entries == log[start..])
  {
    var log, now := logs(pagesRead), logs(firstRead + i);
    var at := start + i;
    assert Later(pagesRead, firstRead + i);
    assert IsLog(log) && IsLog(now);
    ExportHeadExtends(logs, pagesRead, firstRead, i);
    PositionInPrefix(log, now, at);
    PositionInPrefix(log, now, at + 1);
    assert exporter(firstRead + i, Query(Position(now, at), 1)) == Some(ExportAt(now, at, 1));
    PositionSequence(log, at + 1);
    HeadSequence(log);
    OneMore(log, now, start, at);
  }

  lemma OneMore(log: seq<Entry>, now: seq<Entry>, start: nat, at: nat)
    requires log <= now && start <= at < |log|
    ensures log[start..at] + now[at..at + 1] == log[start..at + 1]
    ensures log[start..|log|] == log[start..]
  {
  }

  lemma ExportHeadExtends(logs: nat -> seq<Entry>, frozen: nat, firstRead: nat, i: nat)
    requires Growing(logs) && frozen <= firstRead
    ensures HeadExtends(
              Head(logs(frozen)),
              if i == 0 then None else Some(Head(logs(firstRead + i - 1))),
              Head(logs(firstRead + i)))
  {
    var now := logs(firstRead + i);
    assert Later(frozen, firstRead + i);
    assert IsLog(logs(frozen)) && IsLog(now);
    PrefixHead(logs(frozen), now);
    if i > 0 {
      assert Later(firstRead + i - 1, firstRead + i);
      assert IsLog(logs(firstRead + i - 1));
      PrefixHead(logs(firstRead + i - 1), now);
    }
  }

  /** An export that reaches back to the boundary covers every tracked entry of the pages. */
  lemma ExportCovers(pages: seq<Page>, logs: nat -> seq<Entry>, firstRead: nat, from: nat, roots: set<string>)
    requires Growing(logs) && ReadsSlice(pages, logs, firstRead, from)
    requires RawBoundary(pages, roots).Ok?
    ensures var start := RawBoundary(pages, roots).value.start.sequence;
            && start < |logs(firstRead)|
            && logs(firstRead)[start].rootId in roots
            && forall e :: e in Entries(pages) && e.rootId in roots ==> e in logs(firstRead)[start..]
  {
    BoundaryExact(pages, logs, firstRead, from, roots);
    var log := logs(firstRead);
    var start := RawBoundary(pages, roots).value.start.sequence;
    CoversTail(log, from, start, roots);
  }

  lemma CoversTail(log: seq<Entry>, from: nat, start: nat, roots: set<string>)
    requires FirstTracked(log, from, roots, start)
    ensures forall e :: e in log[from..] && e.rootId in roots ==> e in log[start..]
  {
    forall e | e in log[from..] && e.rootId in roots
      ensures e in log[start..]
    {
      var k :| 0 <= k < |log[from..]| && log[from..][k] == e;
      assert log[from + k] == e && from + k >= start;
      assert log[start..][from + k - start] == e;
    }
  }

  // ---- The whole reading

  /** The anchor of a run: the head shown by one read from the origin. */
  method CaptureAnchor(server: Server, read: nat, ghost logs: nat -> seq<Entry>) returns (r: Result<Cursor>)
    ensures Honest(server, logs) ==> r == Ok(Head(logs(read)))
  {
    var answer := server(read, Query(ORIGIN, 1));
    assert Honest(server, logs) ==> Position(logs(read), 0) == ORIGIN;
    return if answer == None then Err(TimelineInvalid) else Ok(answer.value.head);
  }

  /** A head once seen is a position of every later log, so it can anchor any later traversal. */
  lemma AnchorStays(server: Server, logs: nat -> seq<Entry>, read: nat, firstRead: nat)
    requires Honest(server, logs) && read <= firstRead
    ensures HonestFrom(server, logs, firstRead, Head(logs(read)))
  {
    assert Later(read, firstRead);
    assert IsLog(logs(read));
    HeadSequence(logs(read));
    PositionInPrefix(logs(read), logs(firstRead), |logs(read)|);
  }

  datatype Evidence = Evidence(pages: seq<Page>, raw: seq<Entry>)

  /** What a whole reading must return: the entries logged since the anchor, and the raw slice that covers them. */
  ghost predicate EvidenceOf(
    r: Result<Evidence>, anchored: seq<Entry>, log: seq<Entry>, roots: set<string>)
  {
    var gap := |log| - |anchored|;
    if gap > 1_600 then r == Err(TimelineTooLarge)
    else if forall i :: |anchored| <= i < |log| ==> log[i].rootId !in roots then r == Err(TimelineInvalid)
    else exists start: nat ::
      && FirstTracked(log, |anchored|, roots, start)
      && (if |log| - start <= 1_000
          then r.Ok? && Entries(r.value.pages) == log[|anchored|..] && r.value.raw == log[start..]
          else r == Err(TimelineTooLarge))
  }

  /** What both loops of a reading saw and how they ended. */
  datatype Outcome = Outcome(
    seen: seq<Page>, pages: Result<seq<Page>>, exported: seq<Export>, raw: Result<seq<Entry>>)

  /** Whatever the servers answer: the first step that fails gives the error, and only all of them the evidence. */
  ghost predicate OutcomeOf(
    o: Outcome, r: Result<Evidence>, server: Server, exporter: Exporter, anchor: Cursor, firstRead: nat,
    exportRead: nat, roots: set<string>)
  {
    && |o.seen| <= 100 && Traversed(server, firstRead, anchor, o.seen)
    && Ends(server, firstRead, anchor, o.seen, o.pages)
    && match o.pages
       case Err(e) => r == Err(e)
       case Ok(pages) =>
         if !Accepted(pages) then r == Err(TimelineInvalid)
         else
           match RawBoundary(pages, roots)
           case Err(e) => r == Err(e)
           case Ok(b) =>
             && |o.exported| <= 1_000 && Exported(exporter, exportRead, b, o.exported)
             && ExportEnds(exporter, exportRead, b, o.exported, o.raw)
             && r == (match o.raw
                      case Err(e) => Err(e)
                      case Ok(items) => if items == [] then Err(TimelineInvalid) else Ok(Evidence(pages, items)))
  }

  /**
   Read the pages since the anchor, check them, and export the raw records.
   `exportRead` is the run's first export read; the log may grow before and between all of them.
   */
  method ReadTimelineEvidence(
    server: Server, exporter: Exporter, hashes: Hashes, anchor: Cursor, firstRead: nat, exportRead: nat,
    roots: set<string>,
    ghost logs: nat -> seq<Entry>, ghost anchorRead: nat)
    returns (r: Result<Evidence>, ghost outcome: Outcome)
    requires anchorRead <= firstRead <= exportRead
    ensures OutcomeOf(outcome, r, server, exporter, anchor, firstRead, exportRead, roots)
    ensures Honest(server, logs) && HonestExporter(exporter, logs) && anchor == Head(logs(anchorRead)) ==>
              EvidenceOf(r, logs(anchorRead), logs(firstRead), roots)
  {
    ghost var honest := Honest(server, logs) && HonestExporter(exporter, logs) && anchor == Head(logs(anchorRead));
    ghost var from := |logs(anchorRead)|;
    if honest {
      AnchorStays(server, logs, anchorRead, firstRead);
      assert IsLog(logs(anchorRead));
      HeadSequence(logs(anchorRead));
    }
    var pages, seen := TimelinePages(server, firstRead, anchor, logs);
    outcome := Outcome(seen, pages, [], Err(TimelineInvalid));
    hide Traversed, Ends, Exported, ExportEnds, RawBoundary, Accepted, ReadsSlice, Growing, Honest, HonestExporter;
    hide HonestFrom, Entries, Head, ExportsSlice;
    if pages.Err? {
      return Err(pages.error), outcome;
    }
    hide EvidenceOf;
    if honest {
      HonestGrows(server, logs);
      HonestAccepted(pages.value, logs, firstRead, from);
    }
    var summary := TimelinePageSummary(pages.value, hashes);
    if summary.Err? {
      return Err(summary.error), outcome;
    }
    var raw, exported := RawTimeline(exporter, exportRead, pages.value, roots, logs, firstRead, from);
    outcome := Outcome(seen, pages, exported, raw);
    if honest {
      HonestEvidence(pages.value, raw, logs, anchorRead, firstRead, roots);
    }
    if raw.Err? {
      return Err(raw.error), outcome;
    }
    if pages.value == [] || raw.value == [] {
      return Err(TimelineInvalid), outcome;
    }
    return Ok(Evidence(pages.value, raw.value)), outcome;
  }

  /** With the pages of an honest server and the export that follows them, the reading is as it must be. */
  lemma HonestEvidence(
    pages: seq<Page>, raw: Result<seq<Entry>>, logs: nat -> seq<Entry>, anchorRead: nat, firstRead: nat,
    roots: set<string>)
    requires Growing(logs) && ReadsSlice(pages, logs, firstRead, |logs(anchorRead)|)
    requires |logs(firstRead)| - |logs(anchorRead)| <= 1_600
    requires match RawBoundary(pages, roots)
             case Ok(b) => ExportsSlice(raw, logs(firstRead), b.start.sequence)
             case Err(e) => raw == Err(e)
    ensures EvidenceOf(
              match raw
              case Err(e) => Err(e)
              case Ok(items) => if items == [] then Err(TimelineInvalid) else Ok(Evidence(pages, items)),
              logs(anchorRead), logs(firstRead), roots)
  {
    BoundaryExact(pages, logs, firstRead, |logs(anchorRead)|, roots);
    hide RawBoundary, Growing, Head, Position, Paged;
  }

  lemma HonestGrows(server: Server, logs: nat -> seq<Entry>)
    requires Honest(server, logs)
    ensures Growing(logs)
  {
  }
}
