/**
 The public replay's event chain: every event names the digest of the one
 before it, so the digest at the head fixes the whole sequence.
 */
module ReplayChain {
  import opened Option
  import opened Utf16
  import opened JsonValue
  import opened JsonText
  import opened Codec

  const ENVELOPE_VERSION: Text := Ascii("controlgraph.public-replay-envelope/v1")
  const PAYLOAD_VERSION: Text := Ascii("controlgraph.public-replay-payload/v1")
  const EVENT_ENVELOPE_VERSION: Text := Ascii("controlgraph.public-replay-event-envelope/v1")
  const EVENT_VERSION: Text := Ascii("controlgraph.public-replay-event/v1")
  const SCHEMA_VERSION: Text := Ascii("schema_version")
  const EVENT: Text := Ascii("event")
  const EVENT_SHA256: Text := Ascii("event_sha256")
  const DETAILS: Text := Ascii("details")
  const KIND: Text := Ascii("kind")
  const OCCURRED_AT: Text := Ascii("occurred_at")
  const PREVIOUS: Text := Ascii("previous_event_sha256")
  const SEQUENCE: Text := Ascii("sequence")
  const PREVIOUS_EPOCH: Text := Ascii("previous_epoch")
  const NEW_EPOCH: Text := Ascii("new_epoch")
  const WORK_EPOCH: Text := Ascii("work_epoch")
  const CURRENT_EPOCH: Text := Ascii("current_authority_epoch")
  const PAYLOAD: Text := Ascii("payload")
  const PAYLOAD_SHA256: Text := Ascii("payload_sha256")

  /** The checks this model takes as given: text form, hashing, dates and details. */
  datatype Checks = Checks(
    nfc: Text -> bool,
    hash: seq<Byte> -> Text,
    isTimestamp: Text -> bool,
    detailsValid: (Text, Json) -> bool,
    kinds: seq<Text>)

  /** An event envelope of the right shape: the event object and the digest beside it. */
  datatype Event = Event(body: Json, kind: Text, occurredAt: Text, details: Json, digest: Text)

  function TextField(v: Json, key: Text): Option<Text>
    requires v.Obj?
  {
    match Lookup(v.fields, key)
    case Some(Str(s)) => Some(s)
    case _ => None
  }

  function ReadEvent(item: Json): Option<Event> {
    if !item.Obj? || Keys(item.fields) != {EVENT, EVENT_SHA256, SCHEMA_VERSION}
       || TextField(item, SCHEMA_VERSION) != Some(EVENT_ENVELOPE_VERSION)
    then None
    else
      match (Lookup(item.fields, EVENT), TextField(item, EVENT_SHA256))
      case (Some(Obj(fields)), Some(digest)) =>
        if Keys(fields) != {DETAILS, KIND, OCCURRED_AT, PREVIOUS, SCHEMA_VERSION, SEQUENCE} then None
        else (
          match (TextField(Obj(fields), KIND), TextField(Obj(fields), OCCURRED_AT), Lookup(fields, DETAILS))
          case (Some(kind), Some(at), Some(details)) => Some(Event(Obj(fields), kind, at, details, digest))
          case _ => None
        )
      case _ => None
  }

  /** The link field: null for the first event, else the digest before it. */
  function Link(predecessor: Option<Text>): Json {
    match predecessor
    case None => Null
    case Some(digest) => Str(digest)
  }

  /** One iteration's checks on the event at `index`. */
  predicate EventValid(
    e: Event, index: nat, predecessor: Option<Text>, previousTime: Option<Text>, acceptedAt: Text, c: Checks)
    requires e.body.Obj?
  {
    && index < |c.kinds|
    && c.isTimestamp(e.occurredAt)
    && TextField(e.body, SCHEMA_VERSION) == Some(EVENT_VERSION)
    && Lookup(e.body.fields, SEQUENCE) == Some(Num(Int(index + 1)))
    && e.kind == c.kinds[index]
    && Lookup(e.body.fields, PREVIOUS) == Some(Link(predecessor))
    && (previousTime.Some? ==> !KeyBefore(e.occurredAt, previousTime.value))
    && !KeyBefore(acceptedAt, e.occurredAt)
    && c.detailsValid(e.kind, e.details)
    && CanonicalSha256(EVENT_VERSION, e.body, c.nfc, c.hash) == Some(e.digest)
  }

  function DigestBefore(events: seq<Event>, i: nat): Option<Text>
    requires i <= |events|
  {
    if i == 0 then None else Some(events[i - 1].digest)
  }

  function TimeBefore(events: seq<Event>, i: nat): Option<Text>
    requires i <= |events|
  {
    if i == 0 then None else Some(events[i - 1].occurredAt)
  }

  /** All events check out, each against the digest and time of the one before. */
  predicate Chained(events: seq<Event>, acceptedAt: Text, c: Checks) {
    forall i :: 0 <= i < |events| ==> ValidAt(events, i, acceptedAt, c)
  }

  predicate ValidAt(events: seq<Event>, i: nat, acceptedAt: Text, c: Checks)
    requires i < |events|
  {
    && events[i].body.Obj?
    && EventValid(events[i], i, DigestBefore(events, i), TimeBefore(events, i), acceptedAt, c)
  }

  /** The events of a list of envelopes, when every one has the right shape. */
  function ReadEvents(items: seq<Json>): (r: Option<seq<Event>>)
    ensures r.Some? ==> |r.value| == |items|
  {
    if items == [] then Some([])
    else
      match (ReadEvents(items[..|items| - 1]), ReadEvent(items[|items| - 1]))
      case (Some(events), Some(e)) => Some(events + [e])
      case _ => None
  }

  /** The denial names the epochs of the authority event before it: its work's, and the current one. */
  predicate EpochsAgree(events: seq<Event>) {
    && |events| >= 2 && events[0].details.Obj? && events[1].details.Obj?
    && Lookup(events[0].details.fields, PREVIOUS_EPOCH) == Lookup(events[1].details.fields, WORK_EPOCH)
    && Lookup(events[0].details.fields, NEW_EPOCH) == Lookup(events[1].details.fields, CURRENT_EPOCH)
  }

  predicate AcceptedChain(items: seq<Json>, head: Json, acceptedAt: Text, c: Checks) {
    match ReadEvents(items)
    case None => false
    case Some(events) =>
      && |events| == |c.kinds|
      && events != []
      && Chained(events, acceptedAt, c)
      && head == Link(DigestBefore(events, |events|))
      && EpochsAgree(events)
  }

  lemma ReadEventObject(item: Json)
    requires ReadEvent(item).Some?
    ensures ReadEvent(item).value.body.Obj?
  {
  }

  lemma ChainedSnoc(events: seq<Event>, e: Event, acceptedAt: Text, c: Checks)
    requires e.body.Obj?
    ensures Chained(events + [e], acceptedAt, c)
       <==> && Chained(events, acceptedAt, c)
            && EventValid(e, |events|, DigestBefore(events, |events|), TimeBefore(events, |events|), acceptedAt, c)
  {
    ChainedSplit(events, e, acceptedAt, c);
    ValidAtLast(events, e, acceptedAt, c);
  }

  lemma ChainedSplit(events: seq<Event>, e: Event, acceptedAt: Text, c: Checks)
    ensures Chained(events + [e], acceptedAt, c)
       <==> Chained(events, acceptedAt, c) && ValidAt(events + [e], |events|, acceptedAt, c)
  {
    hide ValidAt;
    if Chained(events + [e], acceptedAt, c) {
      assert ValidAt(events + [e], |events|, acceptedAt, c);
      forall i | 0 <= i < |events|
        ensures ValidAt(events, i, acceptedAt, c)
      {
        assert ValidAt(events + [e], i, acceptedAt, c);
        ValidAtPrefix(events, e, i, acceptedAt, c);
      }
    }
    if Chained(events, acceptedAt, c) && ValidAt(events + [e], |events|, acceptedAt, c) {
      forall i | 0 <= i < |events + [e]|
        ensures ValidAt(events + [e], i, acceptedAt, c)
      {
        if i < |events| {
          assert ValidAt(events, i, acceptedAt, c);
          ValidAtPrefix(events, e, i, acceptedAt, c);
        }
      }
    }
  }

  lemma ValidAtLast(events: seq<Event>, e: Event, acceptedAt: Text, c: Checks)
    requires e.body.Obj?
    ensures ValidAt(events + [e], |events|, acceptedAt, c)
         == EventValid(e, |events|, DigestBefore(events, |events|), TimeBefore(events, |events|), acceptedAt, c)
  {
    var more := events + [e];
    assert more[|events|] == e;
    assert DigestBefore(more, |events|) == DigestBefore(events, |events|);
    assert TimeBefore(more, |events|) == TimeBefore(events, |events|);
  }

  lemma ValidAtPrefix(events: seq<Event>, e: Event, i: nat, acceptedAt: Text, c: Checks)
    requires i < |events|
    ensures ValidAt(events + [e], i, acceptedAt, c) == ValidAt(events, i, acceptedAt, c)
  {
    var more := events + [e];
    assert more[i] == events[i];
    assert DigestBefore(more, i) == DigestBefore(events, i) && TimeBefore(more, i) == TimeBefore(events, i);
  }

  lemma {:induction false} BadPrefixRejected(items: seq<Json>, k: nat, acceptedAt: Text, c: Checks)
    requires k <= |items|
    requires match ReadEvents(items[..k]) case None => true case Some(events) => !Chained(events, acceptedAt, c)
    ensures match ReadEvents(items) case None => true case Some(events) => !Chained(events, acceptedAt, c)
    decreases |items| - k
  {
    if k == |items| {
      assert items[..k] == items;
    } else {
      assert items[..k + 1][..k] == items[..k];
      if ReadEvents(items[..k + 1]).Some? {
        ReadEventObject(items[k]);
        ChainedSnoc(ReadEvents(items[..k]).value, ReadEvent(items[k]).value, acceptedAt, c);
      }
      BadPrefixRejected(items, k + 1, acceptedAt, c);
    }
  }

  /** Reading one more event either breaks the prefix or extends the chain by a valid event. */
  lemma OneEvent(items: seq<Json>, index: nat, events: seq<Event>, acceptedAt: Text, c: Checks)
    requires index < |items| && ReadEvents(items[..index]) == Some(events) && Chained(events, acceptedAt, c)
    ensures match ReadEvent(items[index])
            case None => ReadEvents(items[..index + 1]) == None
            case Some(e) =>
              && e.body.Obj?
              && ReadEvents(items[..index + 1]) == Some(events + [e])
              && (Chained(events + [e], acceptedAt, c)
                  <==> EventValid(e, index, DigestBefore(events, index), TimeBefore(events, index), acceptedAt, c))
  {
    assert items[..index + 1][..index] == items[..index];
    if ReadEvent(items[index]).Some? {
      ReadEventObject(items[index]);
      ChainedSnoc(events, ReadEvent(items[index]).value, acceptedAt, c);
    }
  }

  /** A bad prefix refuses the list. */
  lemma Rejected(items: seq<Json>, k: nat, head: Json, acceptedAt: Text, c: Checks)
    requires k <= |items|
    requires match ReadEvents(items[..k]) case None => true case Some(events) => !Chained(events, acceptedAt, c)
    ensures !AcceptedChain(items, head, acceptedAt, c)
  {
    hide Chained, ReadEvents;
    BadPrefixRejected(items, k, acceptedAt, c);
  }

  /** A list whose events are read and chained is accepted by its length, its head and its epochs. */
  lemma WholeChain(items: seq<Json>, head: Json, acceptedAt: Text, c: Checks)
    ensures |items| != |c.kinds| ==> !AcceptedChain(items, head, acceptedAt, c)
    ensures ReadEvents(items).Some? && Chained(ReadEvents(items).value, acceptedAt, c) && |items| == |c.kinds| ==>
              var events := ReadEvents(items).value;
              (AcceptedChain(items, head, acceptedAt, c)
               <==> && DigestBefore(events, |events|).Some? && head == Link(DigestBefore(events, |events|))
                    && EpochsAgree(events))
  {
    hide Chained, EpochsAgree;
  }

  lemma NoEvents(items: seq<Json>, acceptedAt: Text, c: Checks)
    ensures ReadEvents(items[..0]) == Some([]) && Chained([], acceptedAt, c)
  {
  }

  /** The event loop of the payload validator, with its running predecessor and time. */
  method ValidateEvents(items: seq<Json>, head: Json, acceptedAt: Text, c: Checks) returns (ok: bool)
    ensures ok <==> AcceptedChain(items, head, acceptedAt, c)
  {
    WholeChain(items, head, acceptedAt, c);
    if |items| != |c.kinds| {
      return false;
    }
    hide Chained, ReadEvents, ReadEvent, EventValid, EpochsAgree, AcceptedChain;
    NoEvents(items, acceptedAt, c);
    var predecessor: Option<Text> := None;
    var previousTime: Option<Text> := None;
    var events: seq<Event> := [];
    for index := 0 to |items|
      invariant ReadEvents(items[..index]) == Some(events) && Chained(events, acceptedAt, c)
      invariant predecessor == DigestBefore(events, index) && previousTime == TimeBefore(events, index)
    {
      OneEvent(items, index, events, acceptedAt, c);
      var read := ReadEvent(items[index]);
      if read == None {
        Rejected(items, index + 1, head, acceptedAt, c);
        return false;
      }
      var event := read.value;
      if !EventValid(event, index, predecessor, previousTime, acceptedAt, c) {
        Rejected(items, index + 1, head, acceptedAt, c);
        return false;
      }
      predecessor := Some(event.digest);
      previousTime := Some(event.occurredAt);
      events := events + [event];
    }
    assert items[..|items|] == items;
    return predecessor != None && head == Link(predecessor) && EpochsAgree(events);
  }

  /** What stands in the list at place `i` once it is read: the event's object and the digest beside it. */
  lemma {:induction false} ReadAt(items: seq<Json>, i: nat)
    requires ReadEvents(items).Some? && i < |items|
    ensures ReadEvent(items[i]) == Some(ReadEvents(items).value[i])
  {
    hide ReadEvent;
    if i < |items| - 1 {
      ReadAt(items[..|items| - 1], i);
    }
  }

  /** The shape of one event in its envelope, by the names of its fields. */
  lemma EventShape(item: Json)
    requires ReadEvent(item).Some?
    ensures item.Obj? && Keys(item.fields) == {Ascii("event"), Ascii("event_sha256"), Ascii("schema_version")}
    ensures Lookup(item.fields, Ascii("schema_version"))
         == Some(Str(Ascii("controlgraph.public-replay-event-envelope/v1")))
    ensures var e := ReadEvent(item).value;
            && Lookup(item.fields, Ascii("event")) == Some(e.body)
            && Lookup(item.fields, Ascii("event_sha256")) == Some(Str(e.digest))
            && e.body.Obj?
            && Keys(e.body.fields) == {
                 Ascii("details"), Ascii("kind"), Ascii("occurred_at"), Ascii("previous_event_sha256"),
                 Ascii("schema_version"), Ascii("sequence")}
            && Lookup(e.body.fields, Ascii("kind")) == Some(Str(e.kind))
            && Lookup(e.body.fields, Ascii("occurred_at")) == Some(Str(e.occurredAt))
            && Lookup(e.body.fields, Ascii("details")) == Some(e.details)
  {
    hide Ascii, Keys, Lookup;
  }

  /** What an accepted list says of its `i`-th event, and of the head. */
  lemma AcceptedEvent(items: seq<Json>, head: Json, acceptedAt: Text, c: Checks, i: nat)
    requires AcceptedChain(items, head, acceptedAt, c) && i < |items|
    ensures |items| == |c.kinds| && ReadEvents(items).Some?
    ensures var events := ReadEvents(items).value;
            var e := events[i];
            && e.body.Obj?
            && Lookup(e.body.fields, Ascii("schema_version")) == Some(Str(Ascii("controlgraph.public-replay-event/v1")))
            && Lookup(e.body.fields, Ascii("sequence")) == Some(Num(Int(i + 1)))
            && e.kind == c.kinds[i] && c.isTimestamp(e.occurredAt) && c.detailsValid(e.kind, e.details)
            && Lookup(e.body.fields, Ascii("previous_event_sha256"))
               == Some(if i == 0 then Null else Str(events[i - 1].digest))
            && CanonicalSha256(Ascii("controlgraph.public-replay-event/v1"), e.body, c.nfc, c.hash) == Some(e.digest)
            && !KeyBefore(acceptedAt, e.occurredAt)
            && (i > 0 ==> !KeyBefore(e.occurredAt, events[i - 1].occurredAt))
            && head == Str(events[|events| - 1].digest)
  {
    hide Ascii, Keys, Lookup, KeyBefore, CanonicalSha256, ReadEvents, EpochsAgree;
    assert ValidAt(ReadEvents(items).value, i, acceptedAt, c);
  }

  /** The denial's two epochs are those of the authority event before it. */
  lemma AcceptedEpochs(items: seq<Json>, head: Json, acceptedAt: Text, c: Checks)
    requires AcceptedChain(items, head, acceptedAt, c)
    ensures ReadEvents(items).Some? && |ReadEvents(items).value| >= 2
    ensures var first, second := ReadEvents(items).value[0].details, ReadEvents(items).value[1].details;
            && first.Obj? && second.Obj?
            && Lookup(first.fields, Ascii("previous_epoch")) == Lookup(second.fields, Ascii("work_epoch"))
            && Lookup(first.fields, Ascii("new_epoch")) == Lookup(second.fields, Ascii("current_authority_epoch"))
  {
    hide Ascii, Keys, Lookup, KeyBefore, CanonicalSha256, ReadEvents, Chained;
  }

  // ---- The head fixes the chain

  lemma {:induction false} LookupSame(a: seq<Field>, b: seq<Field>, key: Text)
    requires Same(Obj(a), Obj(b)) && Lookup(a, key).Some? && Lookup(b, key).Some?
    ensures Same(Lookup(a, key).value, Lookup(b, key).value)
  {
    LookupFound(a, key);
    LookupFound(b, key);
    var x, y := Field(key, Lookup(a, key).value), Field(key, Lookup(b, key).value);
    var i :| 0 <= i < |a| && a[i] == x;
    var j :| 0 <= j < |b| && b[j] == y;
  }

  /** Two validators that hash alike, whatever kinds, times and details each accepts. */
  ghost predicate HashAlike(c: Checks, d: Checks) {
    c.hash == d.hash && c.nfc == d.nfc
  }

  /** What one valid event says of its digest and of the one before it. */
  ghost predicate Linked(body: Json, digest: Text, predecessor: Option<Text>, c: Checks) {
    && body.Obj?
    && CanonicalSha256(EVENT_VERSION, body, c.nfc, c.hash) == Some(digest)
    && Lookup(body.fields, PREVIOUS) == Some(Link(predecessor))
  }

  lemma ValidLinked(events: seq<Event>, i: nat, acceptedAt: Text, c: Checks)
    requires i < |events| && ValidAt(events, i, acceptedAt, c)
    ensures Linked(events[i].body, events[i].digest, DigestBefore(events, i), c)
  {
  }

  /** Events with the same digest agree, and so do the links they carry. */
  lemma SameDigestSameLink(
    x: Json, p: Option<Text>, y: Json, q: Option<Text>, digest: Text, c: Checks, toNumber: Text -> Number)
    requires CollisionFree(c.hash) && Exact(toNumber) && Proper(x) && Proper(y)
    requires Linked(x, digest, p, c) && Linked(y, digest, q, c)
    ensures Same(x, y) && p == q
  {
    DigestBindsValue(EVENT_VERSION, x, EVENT_VERSION, y, c.nfc, toNumber, c.hash);
    LookupSame(x.fields, y.fields, PREVIOUS);
  }

  ghost predicate ProperEvents(events: seq<Event>) {
    forall i :: 0 <= i < |events| ==> Proper(events[i].body)
  }

  ghost predicate LinkedAll(events: seq<Event>, c: Checks) {
    forall i :: 0 <= i < |events| ==> Linked(events[i].body, events[i].digest, DigestBefore(events, i), c)
  }

  lemma ChainedLinked(events: seq<Event>, acceptedAt: Text, c: Checks)
    requires Chained(events, acceptedAt, c)
    ensures LinkedAll(events, c)
  {
    forall i | 0 <= i < |events|
      ensures Linked(events[i].body, events[i].digest, DigestBefore(events, i), c)
    {
      ValidLinked(events, i, acceptedAt, c);
    }
  }

  /** Across two chains, a shared digest means the same event and the same digest before it. */
  ghost predicate DigestsAgree(a: seq<Event>, b: seq<Event>) {
    forall i, j :: 0 <= i < |a| && 0 <= j < |b| && a[i].digest == b[j].digest ==>
      Same(a[i].body, b[j].body) && DigestBefore(a, i) == DigestBefore(b, j)
  }

  lemma LinkedDigestsAgree(a: seq<Event>, b: seq<Event>, c: Checks, toNumber: Text -> Number)
    requires CollisionFree(c.hash) && Exact(toNumber) && ProperEvents(a) && ProperEvents(b)
    requires LinkedAll(a, c) && LinkedAll(b, c)
    ensures DigestsAgree(a, b)
  {
    forall i, j | 0 <= i < |a| && 0 <= j < |b| && a[i].digest == b[j].digest
      ensures Same(a[i].body, b[j].body) && DigestBefore(a, i) == DigestBefore(b, j)
    {
      SameDigestSameLink(
        a[i].body, DigestBefore(a, i), b[j].body, DigestBefore(b, j), a[i].digest, c, toNumber);
    }
  }

  /**
   Backward induction: if the first `m` events of one chain and the first `n`
   of another end in the same digest, they are the same events.
   */
  lemma {:induction false} SameEndSamePrefix(a: seq<Event>, m: nat, b: seq<Event>, n: nat)
    requires DigestsAgree(a, b)
    requires m <= |a| && n <= |b| && DigestBefore(a, m) == DigestBefore(b, n)
    ensures m == n
    ensures forall i :: 0 <= i < m ==> Same(a[i].body, b[i].body)
  {
    if m > 0 {
      SameEndSamePrefix(a, m - 1, b, n - 1);
    }
  }

  lemma ReadEventProper(item: Json)
    requires Proper(item) && ReadEvent(item).Some?
    ensures Proper(ReadEvent(item).value.body)
  {
    LookupFound(item.fields, EVENT);
    var f := Field(EVENT, ReadEvent(item).value.body);
    var i :| 0 <= i < |item.fields| && item.fields[i] == f;
  }

  lemma {:induction false} ReadEventsProper(items: seq<Json>)
    requires ReadEvents(items).Some? && forall i :: 0 <= i < |items| ==> Proper(items[i])
    ensures ProperEvents(ReadEvents(items).value)
  {
    if items != [] {
      ReadEventsProper(items[..|items| - 1]);
      ReadEventProper(items[|items| - 1]);
    }
  }

  lemma LinkedAlike(events: seq<Event>, c: Checks, d: Checks)
    requires LinkedAll(events, d) && HashAlike(c, d)
    ensures LinkedAll(events, c)
  {
  }

  /**
   Two accepted chains with one head digest hold the same events and so are of one
   length, even if accepted by validators that expect different kinds and numbers of
   events, as long as these hash alike.
   */
  lemma HeadFixesChain(
    a: seq<Json>, at: Text, c: Checks, b: seq<Json>, bt: Text, d: Checks, head: Json, toNumber: Text -> Number)
    requires CollisionFree(c.hash) && Exact(toNumber) && HashAlike(c, d)
    requires forall i :: 0 <= i < |a| ==> Proper(a[i])
    requires forall i :: 0 <= i < |b| ==> Proper(b[i])
    requires AcceptedChain(a, head, at, c) && AcceptedChain(b, head, bt, d)
    ensures |a| == |b|
    ensures forall i :: 0 <= i < |a| ==> Same(ReadEvents(a).value[i].body, ReadEvents(b).value[i].body)
  {
    ReadEventsProper(a);
    ReadEventsProper(b);
    var x, y := ReadEvents(a).value, ReadEvents(b).value;
    ChainedLinked(x, at, c);
    ChainedLinked(y, bt, d);
    LinkedAlike(y, c, d);
    LinkedDigestsAgree(x, y, c, toNumber);
    SameEndSamePrefix(x, |a|, y, |b|);
  }

  // ---- The payload digest fixes the envelope

  /** `payloadValid` stands for the payload's own field-by-field checks. */
  predicate AcceptedEnvelope(v: Json, payloadValid: Json -> bool, c: Checks) {
    && v.Obj?
    && Keys(v.fields) == {PAYLOAD, PAYLOAD_SHA256, SCHEMA_VERSION}
    && TextField(v, SCHEMA_VERSION) == Some(ENVELOPE_VERSION)
    && Lookup(v.fields, PAYLOAD).Some?
    && payloadValid(Lookup(v.fields, PAYLOAD).value)
    && TextField(v, PAYLOAD_SHA256).Some?
    && TextField(v, PAYLOAD_SHA256) == CanonicalSha256(PAYLOAD_VERSION, Lookup(v.fields, PAYLOAD).value, c.nfc, c.hash)
  }

  lemma FieldIsLookup(fields: seq<Field>, i: nat)
    requires DistinctKeys(fields) && i < |fields|
    ensures Lookup(fields, fields[i].key) == Some(fields[i].value)
  {
    LookupFound(fields, fields[i].key);
    assert fields[i] in fields;
    var f := Field(fields[i].key, Lookup(fields, fields[i].key).value);
    var j :| 0 <= j < |fields| && fields[j] == f;
  }

  lemma LookupProper(v: Json, key: Text)
    requires v.Obj? && Proper(v) && Lookup(v.fields, key).Some?
    ensures Proper(Lookup(v.fields, key).value)
  {
    LookupFound(v.fields, key);
    var f := Field(key, Lookup(v.fields, key).value);
    var i :| 0 <= i < |v.fields| && v.fields[i] == f;
  }

  /** Two accepted envelopes with one payload digest agree up to key order. */
  lemma DigestFixesEnvelope(
    v: Json, w: Json, payloadValid: Json -> bool, c: Checks, toNumber: Text -> Number)
    requires CollisionFree(c.hash) && Exact(toNumber) && Proper(v) && Proper(w)
    requires AcceptedEnvelope(v, payloadValid, c) && AcceptedEnvelope(w, payloadValid, c)
    requires TextField(v, PAYLOAD_SHA256) == TextField(w, PAYLOAD_SHA256)
    ensures Same(v, w)
  {
    LookupProper(v, PAYLOAD);
    LookupProper(w, PAYLOAD);
    var x, y := Lookup(v.fields, PAYLOAD).value, Lookup(w.fields, PAYLOAD).value;
    DigestBindsValue(PAYLOAD_VERSION, x, PAYLOAD_VERSION, y, c.nfc, toNumber, c.hash);
    ThreeFieldsSame(v, w);
  }

  lemma ThreeFieldsSame(v: Json, w: Json)
    requires v.Obj? && w.Obj? && Proper(v) && Proper(w)
    requires Keys(v.fields) == Keys(w.fields) == {PAYLOAD, PAYLOAD_SHA256, SCHEMA_VERSION}
    requires Lookup(v.fields, PAYLOAD).Some? && Lookup(w.fields, PAYLOAD).Some?
    requires Same(Lookup(v.fields, PAYLOAD).value, Lookup(w.fields, PAYLOAD).value)
    requires TextField(v, PAYLOAD_SHA256).Some? && TextField(v, PAYLOAD_SHA256) == TextField(w, PAYLOAD_SHA256)
    requires TextField(v, SCHEMA_VERSION).Some? && TextField(v, SCHEMA_VERSION) == TextField(w, SCHEMA_VERSION)
    ensures Same(v, w)
  {
    hide PAYLOAD, PAYLOAD_SHA256, SCHEMA_VERSION, Lookup;
    forall i, j | 0 <= i < |v.fields| && 0 <= j < |w.fields| && v.fields[i].key == w.fields[j].key
      ensures Same(v.fields[i].value, w.fields[j].value)
    {
      FieldIsLookup(v.fields, i);
      FieldIsLookup(w.fields, j);
      assert v.fields[i] in v.fields;
      assert v.fields[i].key in Keys(v.fields);
    }
  }
}
