/**
 The canonical contract codec: one text for each restricted value up to key
 order, and the domain-separated frame that is hashed.
 */
module Codec {
  import opened Option
  import opened Utf16
  import opened JsonValue
  import opened JsonText

  const MAX_CONTRACT_BYTES: nat := 65_536

  /** What `TextEncoder` encodes: unpaired surrogates become U+FFFD. */
  function Scalars(s: Text): (r: Text)
    ensures WellFormed(r)
    ensures WellFormed(s) ==> r == s
  {
    if s == [] then []
    else if IsHigh(s[0]) && |s| > 1 && IsLow(s[1]) then
      assert s == [s[0], s[1]] + s[2..];
      assert ([s[0], s[1]] + Scalars(s[2..]))[2..] == Scalars(s[2..]);
      [s[0], s[1]] + Scalars(s[2..])
    else if IsHigh(s[0]) || IsLow(s[0]) then [0xFFFD] + Scalars(s[1..])
    else [s[0]] + Scalars(s[1..])
  }

  predicate WithinBytes(s: Text) {
    0 < |Utf8(Scalars(s))| <= MAX_CONTRACT_BYTES
  }

  function CanonicalJson(v: Json, nfc: Text -> bool): Option<Text> {
    if !Restricted(v, 0, nfc) then None
    else
      var text := Print(Ordered(v));
      if WithinBytes(text) then Some(text) else None
  }

  function DecodeCanonicalJson(text: Text, nfc: Text -> bool, toNumber: Text -> Number): Option<Json> {
    if !WithinBytes(text) then None
    else
      match ParseJson(text, toNumber)
      case None => None
      case Some(value) =>
        if Restricted(value, 0, nfc) && value.Obj? && CanonicalJson(value, nfc) == Some(text)
        then Some(value)
        else None
  }

  // ---- Normal forms print alike and stay normal

  lemma {:induction false} PrintPlain(v: Json)
    requires v.Num? ==> SafeInteger(v.number)
    ensures Print(Plain(v)) == Print(v)
    decreases v, 0
  {
    match v
    case Num(x) => assert IntegerText(0) == [ZERO];
    case Arr(items) => PrintPlainItems(items);
    case Obj(fields) => PrintPlainFields(fields);
    case _ =>
  }

  lemma {:induction false} PrintPlainItems(items: seq<Json>)
    ensures PrintItems(PlainItems(items)) == PrintItems(items)
    decreases items, 0
  {
    if items != [] {
      PrintPlainAny(items[0]);
      PrintPlainItems(items[1..]);
      assert PlainItems(items)[1..] == PlainItems(items[1..]);
    }
  }

  lemma {:induction false} PrintPlainFields(fields: seq<Field>)
    ensures PrintFields(PlainFields(fields)) == PrintFields(fields)
    decreases fields, 0
  {
    if fields != [] {
      PrintPlainAny(fields[0].value);
      PrintPlainFields(fields[1..]);
      assert PlainFields(fields)[1..] == PlainFields(fields[1..]);
    }
  }

  lemma {:induction false} PrintPlainAny(v: Json)
    ensures Print(Plain(v)) == Print(v)
    decreases v, 1
  {
    assert IntegerText(0) == [ZERO];
    if v.Num? {
    } else {
      PrintPlain(v);
    }
  }

  lemma {:induction false} PlainIdempotent(v: Json)
    ensures Plain(Plain(v)) == Plain(v)
    decreases v
  {
    match v
    case Arr(items) =>
      forall i | 0 <= i < |items| ensures Plain(Plain(items[i])) == Plain(items[i]) {
        PlainIdempotent(items[i]);
      }
    case Obj(fields) =>
      forall i | 0 <= i < |fields| ensures Plain(Plain(fields[i].value)) == Plain(fields[i].value) {
        PlainIdempotent(fields[i].value);
      }
    case _ =>
  }

  lemma {:induction false} NormalIdempotent(v: Json)
    requires Proper(v)
    ensures Normal(Normal(v)) == Normal(v)
    decreases v
  {
    match v
    case Arr(items) =>
      forall i | 0 <= i < |items| ensures Normal(Normal(items[i])) == Normal(items[i]) {
        NormalIdempotent(items[i]);
      }
    case Obj(fields) =>
      forall i | 0 <= i < |fields| ensures Normal(Normal(fields[i].value)) == Normal(fields[i].value) {
        NormalIdempotent(fields[i].value);
      }
      NormalListIdempotent(fields);
    case _ =>
  }

  lemma NormalListIdempotent(fields: seq<Field>)
    requires DistinctKeys(fields)
    requires forall i :: 0 <= i < |fields| ==> Normal(Normal(fields[i].value)) == Normal(fields[i].value)
    ensures Normal(Normal(Obj(fields))) == Normal(Obj(fields))
  {
    hide Normal, NormalList;
    var r := NormalList(fields);
    NormalFields(fields);
    StrictlySortedDistinct(r);
    forall k | 0 <= k < |r| ensures NormalField(r[k]) == r[k] {
      assert r[k] in r;
      var i := NormalFieldOrigin(fields, r[k]);
    }
    NormalFields(r);
    forall f ensures f in NormalList(r) <==> f in r {
      if f in NormalList(r) {
        var k := NormalFieldOrigin(r, f);
      }
    }
    SortedFieldsUnique(NormalList(r), r);
  }

  lemma {:induction false} RestrictedPrintable(v: Json, depth: nat, nfc: Text -> bool)
    requires Restricted(v, depth, nfc) && Proper(v)
    ensures Printable(v)
    decreases v
  {
    match v
    case Arr(items) =>
      forall i | 0 <= i < |items| ensures Printable(items[i]) {
        RestrictedPrintable(items[i], depth + 1, nfc);
      }
    case Obj(fields) =>
      forall i | 0 <= i < |fields| ensures Printable(fields[i].value) {
        RestrictedPrintable(fields[i].value, depth + 1, nfc);
      }
    case _ =>
  }

  // ---- Main results

  /** Reading a canonical text gives the value back, with its keys sorted. */
  lemma CanonicalTextParses(v: Json, nfc: Text -> bool, toNumber: Text -> Number)
    requires Proper(v) && Exact(toNumber) && CanonicalJson(v, nfc).Some?
    ensures CanonicalJson(v, nfc) == Some(Print(Normal(v)))
    ensures ParseJson(CanonicalJson(v, nfc).value, toNumber) == Some(Normal(v))
  {
    var w := Normal(v);
    NormalRestricted(v, 0, nfc);
    RestrictedPrintable(w, 0, nfc);
    PrintPlainAny(Ordered(v));
    PlainIdempotent(Ordered(v));
    ParsePrinted(w, [], toNumber);
    assert Print(w) + [] == Print(w);
    PrintLead(w);
  }

  /** Decoding undoes encoding, for every object the encoder accepts. */
  lemma DecodeUndoesEncode(v: Json, nfc: Text -> bool, toNumber: Text -> Number)
    requires Proper(v) && v.Obj? && Exact(toNumber) && CanonicalJson(v, nfc).Some?
    ensures DecodeCanonicalJson(CanonicalJson(v, nfc).value, nfc, toNumber) == Some(Normal(v))
    ensures Same(v, Normal(v))
  {
    var w := Normal(v);
    CanonicalTextParses(v, nfc, toNumber);
    NormalRestricted(v, 0, nfc);
    NormalIdempotent(v);
    SameIffNormal(v, w);
    PrintPlainAny(Ordered(w));
  }

  /** Two values share a canonical text exactly when they agree up to key order. */
  lemma CanonicalTextsAgree(v: Json, w: Json, nfc: Text -> bool, toNumber: Text -> Number)
    requires Proper(v) && Proper(w) && Exact(toNumber)
    requires CanonicalJson(v, nfc).Some? && CanonicalJson(w, nfc).Some?
    ensures CanonicalJson(v, nfc) == CanonicalJson(w, nfc) <==> Same(v, w)
  {
    CanonicalTextParses(v, nfc, toNumber);
    CanonicalTextParses(w, nfc, toNumber);
    SameIffNormal(v, w);
  }

  /**
   A text is accepted exactly when it is the canonical text of an object in
   normal form, and then that object is what is returned.
   */
  lemma AcceptedTexts(text: Text, w: Json, nfc: Text -> bool, toNumber: Text -> Number)
    requires Exact(toNumber)
    ensures DecodeCanonicalJson(text, nfc, toNumber) == Some(w)
       <==> w.Obj? && Proper(w) && Normal(w) == w && CanonicalJson(w, nfc) == Some(text)
  {
    if DecodeCanonicalJson(text, nfc, toNumber) == Some(w) {
      ParsedProper(SkipSpace(text), toNumber);
      CanonicalTextParses(w, nfc, toNumber);
    }
    if w.Obj? && Proper(w) && Normal(w) == w && CanonicalJson(w, nfc) == Some(text) {
      DecodeUndoesEncode(w, nfc, toNumber);
    }
  }

  // ---- The digest frame

  const DIGEST_DOMAIN: Text := Ascii("controlgraph.contract-sha256/v1\0")

  function DomainBytes(): seq<Byte> {
    Utf8(Scalars(DIGEST_DOMAIN))
  }

  function Flatten(parts: seq<seq<Byte>>): seq<Byte> {
    if parts == [] then [] else parts[0] + Flatten(parts[1..])
  }

  function SumOfLengths(parts: seq<seq<Byte>>): (n: nat)
    ensures n == |Flatten(parts)|
  {
    if parts == [] then 0 else |parts[0]| + SumOfLengths(parts[1..])
  }

  lemma {:induction false} FlattenSnoc(parts: seq<seq<Byte>>, k: nat)
    requires k < |parts|
    ensures Flatten(parts[..k + 1]) == Flatten(parts[..k]) + parts[k]
    ensures |Flatten(parts[..k + 1])| <= |Flatten(parts)|
  {
    if k == 0 {
      assert parts[..1] == [parts[0]];
      assert Flatten(parts[..1][1..]) == [];
    } else {
      assert parts[..k + 1][1..] == parts[1..][..k];
      assert parts[..k][1..] == parts[1..][..k - 1];
      FlattenSnoc(parts[1..], k - 1);
    }
  }

  /** The parts laid end to end in one buffer of their total size. */
  method Concatenate(parts: seq<seq<Byte>>) returns (output: array<Byte>)
    ensures fresh(output) && output[..] == Flatten(parts)
  {
    output := new Byte[SumOfLengths(parts)](_ => 0);
    var offset := 0;
    for k := 0 to |parts|
      invariant offset == |Flatten(parts[..k])| <= output.Length
      invariant output[..offset] == Flatten(parts[..k])
    {
      FlattenSnoc(parts, k);
      var part := parts[k];
      ghost var before := output[..offset];
      forall i | 0 <= i < |part| {
        output[offset + i] := part[i];
      }
      assert output[..offset] == before;
      assert output[offset..offset + |part|] == part;
      assert output[..offset + |part|] == before + part;
      offset := offset + |part|;
    }
    assert parts[..|parts|] == parts;
    assert output[..] == output[..offset];
  }

  function FramedParts(domain: seq<Byte>, version: seq<Byte>, text: seq<Byte>): seq<Byte> {
    Flatten([domain, version, [0], text])
  }

  /** The bytes that are hashed for a canonical text under a schema version. */
  function Frame(version: Text, text: Text): seq<Byte>
    requires WellFormed(version) && WellFormed(text)
  {
    FramedParts(DomainBytes(), Utf8(version), Utf8(text))
  }

  // ---- Canonical texts are well formed and free of NUL

  predicate Clean(s: Text) {
    WellFormed(s) && 0 !in s
  }

  lemma CleanConcat(s: Text, t: Text)
    requires Clean(s) && Clean(t)
    ensures Clean(s + t)
  {
    WellFormedConcat(s, t);
  }

  lemma CleanAscii(s: Text)
    requires forall i :: 0 <= i < |s| ==> 0 < s[i] < 0x80
    ensures Clean(s)
  {
    AsciiWellFormed(s);
  }

  lemma {:induction false} EscapedClean(s: Text)
    requires WellFormed(s)
    ensures Clean(EscapeAll(s))
  {
    if s != [] {
      EscapedClean(AfterFirst(s));
      if IsHigh(s[0]) {
        assert s[1..][1..] == s[2..];
        assert EscapeAll(s) == [s[0]] + ([s[1]] + EscapeAll(s[2..]));
        assert EscapeAll(s) == [s[0], s[1]] + EscapeAll(s[2..]);
        CleanConcat([s[0], s[1]], EscapeAll(s[2..]));
      } else if s[0] < 0x80 {
        CleanAscii(Escape(s[0]));
        CleanConcat(Escape(s[0]), EscapeAll(s[1..]));
      } else {
        CleanConcat(Escape(s[0]), EscapeAll(s[1..]));
      }
    }
  }

  lemma QuotedClean(s: Text)
    requires WellFormed(s)
    ensures Clean(Quoted(s))
  {
    EscapedClean(s);
    CleanAscii([QUOTE]);
    CleanConcat(EscapeAll(s), [QUOTE]);
    CleanConcat([QUOTE], EscapeAll(s) + [QUOTE]);
  }

  lemma WrapClean(open: Unit, inner: Text, close: Unit)
    requires 0 < open < 0x80 && 0 < close < 0x80 && Clean(inner)
    ensures Clean([open] + (inner + [close]))
  {
    CleanAscii([open]);
    CleanAscii([close]);
    CleanConcat(inner, [close]);
    CleanConcat([open], inner + [close]);
  }

  lemma JoinClean(left: Text, separator: Unit, right: Text)
    requires Clean(left) && 0 < separator < 0x80 && Clean(right)
    ensures Clean(left + ([separator] + right))
  {
    CleanAscii([separator]);
    CleanConcat([separator], right);
    CleanConcat(left, [separator] + right);
  }

  lemma {:induction false} PrintClean(v: Json, depth: nat, nfc: Text -> bool)
    requires Restricted(v, depth, nfc)
    ensures Clean(Print(v))
    decreases v, 0
  {
    match v
    case Null => CleanAscii(NULL_TEXT);
    case Bool(b) => CleanAscii(if b then TRUE_TEXT else FALSE_TEXT);
    case Num(x) => CleanAscii(Print(v));
    case Str(s) => QuotedClean(s);
    case Arr(items) =>
      PrintItemsClean(items, depth + 1, nfc);
      WrapClean(OPEN_ARRAY, PrintItems(items), CLOSE_ARRAY);
    case Obj(fields) =>
      PrintFieldsClean(fields, depth + 1, nfc);
      WrapClean(OPEN_OBJECT, PrintFields(fields), CLOSE_OBJECT);
  }

  lemma {:induction false} PrintItemsClean(items: seq<Json>, depth: nat, nfc: Text -> bool)
    requires forall i :: 0 <= i < |items| ==> Restricted(items[i], depth, nfc)
    ensures Clean(PrintItems(items))
    decreases items, 0
  {
    if items != [] {
      PrintClean(items[0], depth, nfc);
      PrintItemsClean(items[1..], depth, nfc);
      JoinClean(Print(items[0]), COMMA, PrintItems(items[1..]));
    }
  }

  lemma {:induction false} PrintFieldsClean(fields: seq<Field>, depth: nat, nfc: Text -> bool)
    requires forall i :: 0 <= i < |fields| ==> CanonicalKey(fields[i].key) && Restricted(fields[i].value, depth, nfc)
    ensures Clean(PrintFields(fields))
    decreases fields, 0
  {
    if fields != [] {
      CleanAscii(fields[0].key);
      QuotedClean(fields[0].key);
      PrintClean(fields[0].value, depth, nfc);
      JoinClean(Quoted(fields[0].key), COLON, Print(fields[0].value));
      PrintFieldsClean(fields[1..], depth, nfc);
      JoinClean(PrintField(fields[0]), COMMA, PrintFields(fields[1..]));
    }
  }

  lemma CanonicalTextClean(v: Json, nfc: Text -> bool, toNumber: Text -> Number)
    requires Proper(v) && CanonicalJson(v, nfc).Some?
    ensures Clean(CanonicalJson(v, nfc).value)
  {
    NormalRestricted(v, 0, nfc);
    PrintPlainAny(Ordered(v));
    PrintClean(Normal(v), 0, nfc);
  }

  /** A later cut at a NUL byte would put that byte in the tail. */
  lemma LaterNulInTail(a: seq<Byte>, b: seq<Byte>, c: seq<Byte>, d: seq<Byte>)
    requires a + [0] + b == c + [0] + d && |a| < |c|
    ensures 0 in b
  {
    assert (a + [0] + b)[|c|] == (c + [0] + d)[|c|] == 0;
    assert b[|c| - |a| - 1] == 0;
  }

  /** Bytes cut at their last NUL are cut in one way only. */
  lemma LastNulSplits(a: seq<Byte>, b: seq<Byte>, c: seq<Byte>, d: seq<Byte>)
    requires a + [0] + b == c + [0] + d && 0 !in b && 0 !in d
    ensures a == c && b == d
  {
    if |a| < |c| {
      LaterNulInTail(a, b, c, d);
    } else if |c| < |a| {
      LaterNulInTail(c, d, a, b);
    } else {
      var whole := a + [0] + b;
      assert a == whole[..|a|] == c;
      assert b == whole[|a| + 1..] == d;
    }
  }

  /** The schema version and the text can be read off the hashed bytes. */
  lemma FrameInjective(v1: Text, t1: Text, v2: Text, t2: Text)
    requires WellFormed(v1) && WellFormed(v2) && Clean(t1) && Clean(t2)
    ensures Frame(v1, t1) == Frame(v2, t2) <==> v1 == v2 && t1 == t2
  {
    if Frame(v1, t1) == Frame(v2, t2) {
      Utf8HasNoNul(t1);
      Utf8HasNoNul(t2);
      FramedPartsInjective(DomainBytes(), Utf8(v1), Utf8(t1), Utf8(v2), Utf8(t2));
      Utf8Injective(v1, v2);
      Utf8Injective(t1, t2);
    }
  }

  lemma FramedPartsInjective(domain: seq<Byte>, v1: seq<Byte>, t1: seq<Byte>, v2: seq<Byte>, t2: seq<Byte>)
    requires FramedParts(domain, v1, t1) == FramedParts(domain, v2, t2) && 0 !in t1 && 0 !in t2
    ensures v1 == v2 && t1 == t2
  {
    FramedPartsShape(domain, v1, t1);
    FramedPartsShape(domain, v2, t2);
    assert v1 + [0] + t1 == FramedParts(domain, v1, t1)[|domain|..] == v2 + [0] + t2;
    LastNulSplits(v1, t1, v2, t2);
  }

  lemma FramedPartsShape(domain: seq<Byte>, version: seq<Byte>, text: seq<Byte>)
    ensures FramedParts(domain, version, text) == domain + (version + [0] + text)
  {
    var nul: seq<Byte> := [0];
    FlattenCons(text, []);
    FlattenCons(nul, [text]);
    FlattenCons(version, [nul, text]);
    FlattenCons(domain, [version, nul, text]);
    assert [nul] + [text] == [nul, text];
    assert [version] + [nul, text] == [version, nul, text];
    assert [domain] + [version, nul, text] == [domain, version, nul, text];
    assert version + (nul + (text + [])) == version + nul + text;
  }

  lemma FlattenCons(part: seq<Byte>, parts: seq<seq<Byte>>)
    ensures Flatten([part] + parts) == part + Flatten(parts)
  {
    assert ([part] + parts)[1..] == parts;
  }

  // ---- Digests

  /** A hash with no collisions, standing for SHA-256. */
  ghost predicate CollisionFree<Digest(!new)>(hash: seq<Byte> -> Digest) {
    forall x, y :: hash(x) == hash(y) ==> x == y
  }

  function CanonicalSha256<Digest>(
    version: Text, v: Json, nfc: Text -> bool, hash: seq<Byte> -> Digest): Option<Digest>
  {
    if !NormalText(version, nfc) then None
    else
      match CanonicalJson(v, nfc)
      case None => None
      case Some(text) => Some(hash(Frame(version, Scalars(text))))
  }

  /** Equal digests mean the same schema version and the same value up to key order. */
  lemma DigestBindsValue<Digest(!new)>(
    v1: Text, x: Json, v2: Text, y: Json,
    nfc: Text -> bool, toNumber: Text -> Number, hash: seq<Byte> -> Digest)
    requires CollisionFree(hash) && Exact(toNumber) && Proper(x) && Proper(y)
    requires CanonicalSha256(v1, x, nfc, hash).Some? && CanonicalSha256(v2, y, nfc, hash).Some?
    ensures CanonicalSha256(v1, x, nfc, hash) == CanonicalSha256(v2, y, nfc, hash)
       <==> v1 == v2 && Same(x, y)
  {
    CanonicalTextClean(x, nfc, toNumber);
    CanonicalTextClean(y, nfc, toNumber);
    FrameInjective(v1, CanonicalJson(x, nfc).value, v2, CanonicalJson(y, nfc).value);
    CanonicalTextsAgree(x, y, nfc, toNumber);
  }
}
