/**
 Unpadded base64url (section 5 of RFC 4648) as the contract codec writes and
 reads it, through the padded alphabet of `btoa` and `atob`.
 */
module Base64Url {
  import opened Option
  import opened Utf16

  const PAD: Unit := 0x3D
  const PLUS: Unit := 0x2B
  const SLASH: Unit := 0x2F
  const MINUS: Unit := 0x2D
  const UNDERSCORE: Unit := 0x5F

  // ---- Bytes and groups of six bits

  predicate Sextets(d: seq<int>) {
    forall i :: 0 <= i < |d| ==> 0 <= d[i] < 64
  }

  function Split(b: seq<Byte>): (d: seq<int>)
    ensures Sextets(d)
  {
    if |b| == 0 then []
    else if |b| == 1 then [b[0] as int / 4, b[0] as int % 4 * 16]
    else if |b| == 2 then [b[0] as int / 4, b[0] as int % 4 * 16 + b[1] / 16, b[1] as int % 16 * 4]
    else SplitGroup(b[0], b[1], b[2]) + Split(b[3..])
  }

  function SplitGroup(p: int, q: int, r: int): (d: seq<int>)
    requires 0 <= p < 256 && 0 <= q < 256 && 0 <= r < 256
    ensures |d| == 4 && Sextets(d)
  {
    [p / 4, p % 4 * 16 + q / 16, q % 16 * 4 + r / 64, r % 64]
  }

  function JoinGroup(w: int, x: int, y: int, z: int): (b: seq<Byte>)
    requires 0 <= w < 64 && 0 <= x < 64 && 0 <= y < 64 && 0 <= z < 64
    ensures |b| == 3
  {
    [w * 4 + x / 16, x % 16 * 16 + y / 4, y % 4 * 64 + z]
  }

  /** Bits of a short last group that do not fill a byte are dropped. */
  function Join(d: seq<int>): (b: Option<seq<Byte>>)
    requires Sextets(d)
    ensures b.Some? <==> |d| % 4 != 1
    ensures b.Some? ==> |b.value| == |d| * 3 / 4
  {
    if |d| == 0 then Some([])
    else if |d| == 1 then None
    else if |d| == 2 then Some([d[0] * 4 + d[1] / 16])
    else if |d| == 3 then Some([d[0] * 4 + d[1] / 16, d[1] % 16 * 16 + d[2] / 4])
    else
      assert |d[4..]| % 4 == |d| % 4;
      match Join(d[4..])
      case Some(more) => Some(JoinGroup(d[0], d[1], d[2], d[3]) + more)
      case None => None
  }

  lemma Digits4(q: int, r: int)
    requires 0 <= r < 4
    ensures (q * 4 + r) / 4 == q && (q * 4 + r) % 4 == r
  {
  }

  lemma Digits16(q: int, r: int)
    requires 0 <= r < 16
    ensures (q * 16 + r) / 16 == q && (q * 16 + r) % 16 == r
  {
  }

  lemma Digits64(q: int, r: int)
    requires 0 <= r < 64
    ensures (q * 64 + r) / 64 == q && (q * 64 + r) % 64 == r
  {
  }

  lemma GroupRoundTrip(p: int, q: int, r: int)
    requires 0 <= p < 256 && 0 <= q < 256 && 0 <= r < 256
    ensures var d := SplitGroup(p, q, r); JoinGroup(d[0], d[1], d[2], d[3]) == [p, q, r]
  {
    Digits16(p % 4, q / 16);
    Digits4(q % 16, r / 64);
  }

  lemma GroupResplits(w: int, x: int, y: int, z: int)
    requires 0 <= w < 64 && 0 <= x < 64 && 0 <= y < 64 && 0 <= z < 64
    ensures var b := JoinGroup(w, x, y, z); SplitGroup(b[0], b[1], b[2]) == [w, x, y, z]
  {
    Digits4(w, x / 16);
    Digits16(x % 16, y / 4);
    Digits64(y % 4, z);
  }

  lemma {:induction false} JoinUndoesSplit(b: seq<Byte>)
    ensures |Split(b)| == |b| / 3 * 4 + (if |b| % 3 == 0 then 0 else |b| % 3 + 1)
    ensures Join(Split(b)) == Some(b)
  {
    if |b| == 1 {
      assert Join(Split(b)).value == b;
    } else if |b| == 2 {
      assert Join(Split(b)).value == b;
    } else if |b| >= 3 {
      hide SplitGroup, JoinGroup;
      JoinUndoesSplit(b[3..]);
      GroupRoundTrip(b[0], b[1], b[2]);
      var d := Split(b);
      assert d[4..] == Split(b[3..]);
      assert d[..4] == SplitGroup(b[0], b[1], b[2]);
      assert [b[0], b[1], b[2]] + b[3..] == b;
    }
  }

  /** The bits a short last group cannot carry are zero. */
  predicate ZeroTrailingBits(d: seq<int>) {
    && (|d| % 4 == 2 ==> d[|d| - 1] % 16 == 0)
    && (|d| % 4 == 3 ==> d[|d| - 1] % 4 == 0)
  }

  lemma {:induction false} SplitUndoesJoin(d: seq<int>)
    requires Sextets(d) && |d| % 4 != 1
    ensures Split(Join(d).value) == d <==> ZeroTrailingBits(d)
  {
    if |d| == 2 {
      ResplitTwo(d[0], d[1]);
      assert d == [d[0], d[1]];
    } else if |d| == 3 {
      ResplitThree(d[0], d[1], d[2]);
      assert d == [d[0], d[1], d[2]];
    } else if |d| >= 4 {
      ResplitGroup(d);
      assert d == d[..4] + d[4..];
      TailOfFour(d);
      SplitUndoesJoin(d[4..]);
      SameAfterPrefix(d[..4], Split(Join(d[4..]).value), d[4..]);
    }
  }

  lemma JoinFour(d: seq<int>)
    requires Sextets(d) && |d| % 4 != 1 && |d| >= 4
    ensures Join(d[4..]).Some?
    ensures Join(d).value == JoinGroup(d[0], d[1], d[2], d[3]) + Join(d[4..]).value
  {
    LessFour(|d|);
    var tail := d[4..];
    assert |tail| == |d| - 4;
    assert Join(tail).Some?;
  }

  lemma LessFour(n: int)
    requires n >= 4
    ensures (n - 4) % 4 == n % 4
  {
  }

  /** The first four sextets survive joining and splitting. */
  lemma ResplitGroup(d: seq<int>)
    requires Sextets(d) && |d| % 4 != 1 && |d| >= 4
    ensures Join(d[4..]).Some?
    ensures Split(Join(d).value) == d[..4] + Split(Join(d[4..]).value)
  {
    JoinFour(d);
    var group, more := JoinGroup(d[0], d[1], d[2], d[3]), Join(d[4..]).value;
    SplitCons(group, more);
    assert SplitGroup(group[0], group[1], group[2]) == d[..4] by {
      GroupResplits(d[0], d[1], d[2], d[3]);
      FirstFour(d);
    }
  }

  lemma FirstFour(d: seq<int>)
    requires |d| >= 4
    ensures d[..4] == [d[0], d[1], d[2], d[3]]
  {
  }

  lemma TailOfFour(d: seq<int>)
    requires |d| >= 4
    ensures |d[4..]| % 4 == |d| % 4
    ensures ZeroTrailingBits(d[4..]) == ZeroTrailingBits(d)
  {
    assert |d| > 4 ==> d[4..][|d| - 5] == d[|d| - 1];
  }

  lemma SplitCons(group: seq<Byte>, more: seq<Byte>)
    requires |group| == 3
    ensures Split(group + more) == SplitGroup(group[0], group[1], group[2]) + Split(more)
  {
    assert (group + more)[3..] == more;
  }

  lemma ResplitTwo(w: int, x: int)
    requires 0 <= w < 64 && 0 <= x < 64
    ensures Split([w * 4 + x / 16]) == [w, x] <==> x % 16 == 0
  {
    var p := w * 4 + x / 16;
    assert p / 4 == w && p % 4 * 16 == x / 16 * 16;
    assert Split([p]) == [w, x / 16 * 16];
    assert [w, x][1] == x;
  }

  lemma ResplitThree(w: int, x: int, y: int)
    requires 0 <= w < 64 && 0 <= x < 64 && 0 <= y < 64
    ensures Split([w * 4 + x / 16, x % 16 * 16 + y / 4]) == [w, x, y] <==> y % 4 == 0
  {
    var p, q := w * 4 + x / 16, x % 16 * 16 + y / 4;
    assert p / 4 == w && p % 4 * 16 + q / 16 == x && q % 16 * 4 == y / 4 * 4;
    assert Split([p, q]) == [w, x, y / 4 * 4];
    assert [w, x, y][2] == y;
  }

  lemma SameAfterPrefix(p: seq<int>, x: seq<int>, y: seq<int>)
    ensures p + x == p + y <==> x == y
  {
    if p + x == p + y {
      assert x == (p + x)[|p|..] == (p + y)[|p|..] == y;
    }
  }

  // ---- The standard alphabet

  function StandardUnit(d: int): Unit
    requires 0 <= d < 64
  {
    if d < 26 then 0x41 + d
    else if d < 52 then 0x61 + (d - 26)
    else if d < 62 then 0x30 + (d - 52)
    else if d == 62 then PLUS
    else SLASH
  }

  /** The six bits a unit stands for, or -1 outside the alphabet. */
  function StandardValue(u: Unit): (d: int)
    ensures -1 <= d < 64
    ensures d >= 0 ==> StandardUnit(d) == u
  {
    if 0x41 <= u <= 0x5A then u as int - 0x41
    else if 0x61 <= u <= 0x7A then u as int - 0x61 + 26
    else if 0x30 <= u <= 0x39 then u as int - 0x30 + 52
    else if u == PLUS then 62
    else if u == SLASH then 63
    else -1
  }

  lemma StandardValueOf(d: int)
    requires 0 <= d < 64
    ensures StandardValue(StandardUnit(d)) == d
  {
  }

  function Write(d: seq<int>): (t: Text)
    requires Sextets(d)
    ensures |t| == |d| && forall i :: 0 <= i < |t| ==> t[i] == StandardUnit(d[i])
  {
    seq(|d|, i requires 0 <= i < |d| => StandardUnit(d[i]))
  }

  function Read(t: Text): (d: seq<int>)
    ensures |d| == |t| && forall i :: 0 <= i < |d| ==> d[i] == StandardValue(t[i])
  {
    seq(|t|, i requires 0 <= i < |t| => StandardValue(t[i]))
  }

  lemma ReadWrite(d: seq<int>)
    requires Sextets(d)
    ensures Read(Write(d)) == d
  {
    forall i | 0 <= i < |d| ensures Read(Write(d))[i] == d[i] {
      StandardValueOf(d[i]);
    }
  }

  lemma WriteRead(t: Text)
    requires Sextets(Read(t))
    ensures Write(Read(t)) == t
  {
  }

  // ---- btoa and atob

  function Pads(k: nat): (t: Text)
    ensures |t| == k && forall i :: 0 <= i < k ==> t[i] == PAD
  {
    if k == 0 then [] else Pads(k - 1) + [PAD]
  }

  function Btoa(b: seq<Byte>): Text {
    Write(Split(b)) + Pads((3 - |b| % 3) % 3)
  }

  function DropPad(t: Text): Text {
    if t != [] && t[|t| - 1] == PAD then t[..|t| - 1] else t
  }

  /** `atob` on text without white space: at most two pads are forgiven. */
  function Atob(t: Text): Option<seq<Byte>> {
    var body := if |t| % 4 == 0 then DropPad(DropPad(t)) else t;
    if Sextets(Read(body)) then Join(Read(body)) else None
  }

  // ---- The codec

  function ToUrlUnit(u: Unit): Unit {
    if u == PLUS then MINUS else if u == SLASH then UNDERSCORE else u
  }

  function ToStandardUnit(u: Unit): Unit {
    if u == MINUS then PLUS else if u == UNDERSCORE then SLASH else u
  }

  function ToUrl(t: Text): (r: Text)
    ensures |r| == |t| && forall i :: 0 <= i < |r| ==> r[i] == ToUrlUnit(t[i])
  {
    seq(|t|, i requires 0 <= i < |t| => ToUrlUnit(t[i]))
  }

  function ToStandard(t: Text): (r: Text)
    ensures |r| == |t| && forall i :: 0 <= i < |r| ==> r[i] == ToStandardUnit(t[i])
  {
    seq(|t|, i requires 0 <= i < |t| => ToStandardUnit(t[i]))
  }

  function StripPads(t: Text): Text {
    if t != [] && t[|t| - 1] == PAD then StripPads(t[..|t| - 1]) else t
  }

  function EncodeBase64Url(b: seq<Byte>): Text {
    StripPads(ToUrl(Btoa(b)))
  }

  predicate UrlUnit(u: Unit) {
    0x41 <= u <= 0x5A || 0x61 <= u <= 0x7A || 0x30 <= u <= 0x39 || u == MINUS || u == UNDERSCORE
  }

  predicate UrlText(t: Text) {
    forall i :: 0 <= i < |t| ==> UrlUnit(t[i])
  }

  /** Text filled up with pads to a multiple of four units. */
  function Padded(t: Text): Text {
    t + Pads((4 - |t| % 4) % 4)
  }

  function DecodeBase64Url(t: Text, maximumBytes: nat): Option<seq<Byte>> {
    if |t| > maximumBytes * 2 || !UrlText(t) then None
    else
      match Atob(Padded(ToStandard(t)))
      case None => None
      case Some(decoded) =>
        if |decoded| <= maximumBytes && EncodeBase64Url(decoded) == t then Some(decoded) else None
  }

  // ---- Alphabets and padding

  lemma UrlUnitValue(u: Unit)
    ensures UrlUnit(u) ==> StandardValue(ToStandardUnit(u)) >= 0 && ToUrlUnit(ToStandardUnit(u)) == u
    ensures StandardValue(u) >= 0 ==> UrlUnit(ToUrlUnit(u)) && ToStandardUnit(ToUrlUnit(u)) == u
  {
  }

  lemma UrlStandard(t: Text)
    requires UrlText(t)
    ensures Sextets(Read(ToStandard(t))) && ToUrl(ToStandard(t)) == t
  {
    forall i | 0 <= i < |t| ensures StandardValue(ToStandard(t)[i]) >= 0 && ToUrl(ToStandard(t))[i] == t[i] {
      UrlUnitValue(t[i]);
    }
  }

  lemma StandardUrl(t: Text)
    requires Sextets(Read(t))
    ensures UrlText(ToUrl(t)) && ToStandard(ToUrl(t)) == t
  {
    forall i | 0 <= i < |t| ensures UrlUnit(ToUrl(t)[i]) && ToStandard(ToUrl(t))[i] == t[i] {
      assert Read(t)[i] >= 0;
      UrlUnitValue(t[i]);
    }
  }

  lemma {:induction false} StripPadsExact(t: Text, k: nat)
    requires t == [] || t[|t| - 1] != PAD
    ensures StripPads(t + Pads(k)) == t
  {
    var padded := t + Pads(k);
    if k == 0 {
      assert padded == t;
    } else {
      assert padded[..|padded| - 1] == t + Pads(k - 1);
      StripPadsExact(t, k - 1);
    }
  }

  /** The encoder's text is its unpadded body in the URL alphabet. */
  lemma EncodeIsBody(b: seq<Byte>)
    ensures EncodeBase64Url(b) == ToUrl(Write(Split(b)))
    ensures UrlText(EncodeBase64Url(b)) && ToStandard(EncodeBase64Url(b)) == Write(Split(b))
  {
    var body := Write(Split(b));
    ReadWrite(Split(b));
    StandardUrl(body);
    var k := (3 - |b| % 3) % 3;
    assert ToUrl(Btoa(b)) == ToUrl(body) + Pads(k);
    StripPadsExact(ToUrl(body), k);
  }

  lemma DropOnePad(t: Text, k: nat)
    ensures DropPad(t + Pads(k + 1)) == t + Pads(k)
  {
    assert t + Pads(k + 1) == (t + Pads(k)) + [PAD];
  }

  lemma DropTwoPads(t: Text, k: nat)
    requires t == [] || t[|t| - 1] != PAD
    ensures DropPad(DropPad(t + Pads(k))) == t + Pads(if k < 2 then 0 else k - 2)
  {
    assert t + Pads(0) == t;
    assert DropPad(t) == t;
    if k >= 1 {
      DropOnePad(t, k - 1);
    }
    if k >= 2 {
      DropOnePad(t, k - 2);
    }
  }

  lemma OnePadFails(t: Text)
    ensures !Sextets(Read(t + Pads(1)))
  {
    assert Read(t + Pads(1))[|t|] == StandardValue(PAD) == -1;
  }

  lemma EndsUnpadded(t: Text)
    requires Sextets(Read(t))
    ensures t == [] || t[|t| - 1] != PAD
  {
    if t != [] {
      assert Read(t)[|t| - 1] >= 0;
      assert StandardValue(PAD) == -1;
    }
  }

  /** The padding the decoder adds is what `atob` takes off, unless one unit is left over. */
  lemma PaddingCancels(t: Text)
    requires Sextets(Read(t))
    ensures Atob(Padded(t)) == if |t| % 4 == 1 then None else Join(Read(t))
  {
    PaddedLength(t);
    EndsUnpadded(t);
    DropTwoPads(t, (4 - |t| % 4) % 4);
    assert t + Pads(0) == t;
    OnePadFails(t);
  }

  lemma PaddedLength(t: Text)
    ensures |Padded(t)| % 4 == 0
  {
  }

  // ---- Main results

  /** Decoding undoes encoding for every byte string within the limit. */
  lemma Base64RoundTrip(b: seq<Byte>, maximumBytes: nat)
    requires |b| <= maximumBytes
    ensures DecodeBase64Url(EncodeBase64Url(b), maximumBytes) == Some(b)
  {
    EncodeIsBody(b);
    ReadWrite(Split(b));
    JoinUndoesSplit(b);
    PaddingCancels(Write(Split(b)));
  }

  /**
   A text is accepted exactly when it uses the alphabet, has a possible length,
   leaves no stray bits and decodes within the limit; and what is accepted is the
   encoding of what it decodes to.
   */
  lemma AcceptedBase64(t: Text, maximumBytes: nat)
    ensures DecodeBase64Url(t, maximumBytes).Some?
       <==> && UrlText(t)
            && |t| % 4 != 1
            && ZeroTrailingBits(Read(ToStandard(t)))
            && |t| * 3 / 4 <= maximumBytes
    ensures DecodeBase64Url(t, maximumBytes).Some? ==>
              EncodeBase64Url(DecodeBase64Url(t, maximumBytes).value) == t
  {
    if UrlText(t) {
      UrlStandard(t);
      var s := ToStandard(t);
      PaddingCancels(s);
      if |t| % 4 != 1 {
        var b := Join(Read(s)).value;
        SplitUndoesJoin(Read(s));
        EncodeIsBody(b);
        ReadWrite(Split(b));
        WriteRead(s);
        assert EncodeBase64Url(b) == t <==> Split(b) == Read(s);
      }
    }
  }
}
