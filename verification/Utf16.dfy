/**
 Text as the console handles it: JavaScript strings are sequences of UTF-16
 code units, and `TextEncoder` turns them into UTF-8 bytes.
 */
module Utf16 {
  type Unit = u: int | 0 <= u < 0x1_0000
  type Byte = b: int | 0 <= b < 0x100
  type Scalar = c: int | 0 <= c < 0xD800 || 0xE000 <= c < 0x11_0000

  type Text = seq<Unit>

  /** A literal of the source, in code units. */
  function Ascii(s: string): (t: Text)
    ensures |t| == |s|
  {
    seq(|s|, i requires 0 <= i < |s| => if s[i] as int < 0x80 then s[i] as int else 0xFFFD)
  }

  predicate IsHigh(u: Unit) {
    0xD800 <= u <= 0xDBFF
  }

  predicate IsLow(u: Unit) {
    0xDC00 <= u <= 0xDFFF
  }

  /** No surrogate code unit stands alone. */
  predicate WellFormed(s: Text) {
    if s == [] then true
    else if IsHigh(s[0]) then |s| > 1 && IsLow(s[1]) && WellFormed(s[2..])
    else !IsLow(s[0]) && WellFormed(s[1..])
  }

  /** The scan for unpaired surrogates, which skips the low half of each pair. */
  method AssertUnicodeScalars(value: Text) returns (ok: bool)
    ensures ok == WellFormed(value)
  {
    var index := 0;
    while index < |value|
      invariant 0 <= index <= |value|
      invariant WellFormed(value) == WellFormed(value[index..])
    {
      var unit := value[index];
      if IsHigh(unit) {
        if index + 1 >= |value| || !IsLow(value[index + 1]) {
          return false;
        }
        assert value[index..][2..] == value[index + 2..];
        index := index + 1;
      } else if IsLow(unit) {
        return false;
      } else {
        assert value[index..][1..] == value[index + 1..];
      }
      index := index + 1;
    }
    return true;
  }

  /** The scalar value a well-formed, non-empty text starts with. */
  function FirstScalar(s: Text): (c: Scalar)
    requires s != [] && WellFormed(s)
    ensures c < 0x1_0000 <==> !IsHigh(s[0])
  {
    if IsHigh(s[0]) then 0x1_0000 + (s[0] as int - 0xD800) * 0x400 + (s[1] as int - 0xDC00) else s[0]
  }

  function AfterFirst(s: Text): (rest: Text)
    requires s != [] && WellFormed(s)
    ensures |rest| < |s| && WellFormed(rest)
  {
    if IsHigh(s[0]) then s[2..] else s[1..]
  }

  /** UTF-8 of one scalar value (section 3 of RFC 3629). */
  function EncodeScalar(c: Scalar): (bytes: seq<Byte>)
    ensures 1 <= |bytes| <= 4
  {
    if c < 0x80 then [c]
    else if c < 0x800 then [0xC0 + c / 0x40, 0x80 + c % 0x40]
    else if c < 0x1_0000 then [0xE0 + c / 0x1000, 0x80 + c / 0x40 % 0x40, 0x80 + c % 0x40]
    else [0xF0 + c / 0x4_0000, 0x80 + c / 0x1000 % 0x40, 0x80 + c / 0x40 % 0x40, 0x80 + c % 0x40]
  }

  function Utf8(s: Text): (bytes: seq<Byte>)
    requires WellFormed(s)
    ensures |bytes| >= |s|
  {
    if s == [] then [] else EncodeScalar(FirstScalar(s)) + Utf8(AfterFirst(s))
  }

  /** The length of an encoded scalar, read off its first byte. */
  function SequenceLength(lead: Byte): nat {
    if lead < 0x80 then 1 else if lead < 0xE0 then 2 else if lead < 0xF0 then 3 else 4
  }

  function Tail(b: Byte): int {
    b as int - 0x80
  }

  /** The number carried by an encoded scalar. */
  function ScalarValue(e: seq<Byte>): int
    requires 1 <= |e| <= 4
  {
    if |e| == 1 then e[0]
    else if |e| == 2 then (e[0] as int - 0xC0) * 0x40 + Tail(e[1])
    else if |e| == 3 then (e[0] as int - 0xE0) * 0x1000 + Tail(e[1]) * 0x40 + Tail(e[2])
    else (e[0] as int - 0xF0) * 0x4_0000 + Tail(e[1]) * 0x1000 + Tail(e[2]) * 0x40 + Tail(e[3])
  }

  lemma ScalarRoundTrip(c: Scalar)
    ensures SequenceLength(EncodeScalar(c)[0]) == |EncodeScalar(c)|
    ensures ScalarValue(EncodeScalar(c)) == c
  {
    if c < 0x80 {
    } else if c < 0x800 {
    } else {
      SixBitDigits(c);
    }
  }

  lemma SixBitDigits(c: int)
    requires 0 <= c
    ensures c == c / 0x1000 * 0x1000 + c / 0x40 % 0x40 * 0x40 + c % 0x40
    ensures c == c / 0x4_0000 * 0x4_0000 + c / 0x1000 % 0x40 * 0x1000 + c / 0x40 % 0x40 * 0x40 + c % 0x40
  {
    var q := c / 0x40;
    assert c / 0x1000 == q / 0x40;
    assert c / 0x4_0000 == q / 0x40 / 0x40;
  }

  /** UTF-8 is a prefix code: the first scalar can be read off the bytes. */
  lemma ScalarPrefixFree(c: Scalar, d: Scalar, x: seq<Byte>, y: seq<Byte>)
    requires EncodeScalar(c) + x == EncodeScalar(d) + y
    ensures c == d && x == y
  {
    var e, f := EncodeScalar(c), EncodeScalar(d);
    ScalarRoundTrip(c);
    ScalarRoundTrip(d);
    SameLead(e, f, x, y);
  }

  lemma SameLead(e: seq<Byte>, f: seq<Byte>, x: seq<Byte>, y: seq<Byte>)
    requires e != [] && f != []
    requires |e| == SequenceLength(e[0]) && |f| == SequenceLength(f[0])
    requires e + x == f + y
    ensures e == f && x == y
  {
    var whole := e + x;
    assert whole[0] == e[0] == f[0];
    assert e == whole[..|e|] == f;
    assert x == whole[|e|..] == y;
  }

  /** The first scalar and what follows it determine a text. */
  lemma SplitDeterminesText(s: Text, t: Text)
    requires s != [] && WellFormed(s) && t != [] && WellFormed(t)
    requires FirstScalar(s) == FirstScalar(t) && AfterFirst(s) == AfterFirst(t)
    ensures s == t
  {
    if IsHigh(s[0]) {
      assert s == [s[0], s[1]] + s[2..];
      assert t == [t[0], t[1]] + t[2..];
    } else {
      assert s == [s[0]] + s[1..];
      assert t == [t[0]] + t[1..];
    }
  }

  /** Two well-formed texts with the same UTF-8 bytes are the same text. */
  lemma {:induction false} Utf8Injective(s: Text, t: Text)
    requires WellFormed(s) && WellFormed(t)
    requires Utf8(s) == Utf8(t)
    ensures s == t
  {
    if s == [] || t == [] {
      assert |s| == 0 && |t| == 0;
    } else {
      ScalarPrefixFree(FirstScalar(s), FirstScalar(t), Utf8(AfterFirst(s)), Utf8(AfterFirst(t)));
      Utf8Injective(AfterFirst(s), AfterFirst(t));
      SplitDeterminesText(s, t);
    }
  }

  /** A NUL byte only ever encodes a NUL code unit. */
  lemma {:induction false} Utf8HasNoNul(s: Text)
    requires WellFormed(s) && 0 !in s
    ensures 0 !in Utf8(s)
  {
    if s != [] {
      assert forall u :: u in AfterFirst(s) ==> u in s;
      assert FirstScalar(s) != 0;
      Utf8HasNoNul(AfterFirst(s));
    }
  }

  lemma {:induction false} WellFormedConcat(s: Text, t: Text)
    requires WellFormed(s) && WellFormed(t)
    ensures WellFormed(s + t)
  {
    if s == [] {
      assert s + t == t;
    } else {
      WellFormedConcat(AfterFirst(s), t);
      if IsHigh(s[0]) {
        assert (s + t)[2..] == s[2..] + t;
      } else {
        assert (s + t)[1..] == s[1..] + t;
      }
    }
  }

  lemma {:induction false} AsciiWellFormed(s: Text)
    requires forall u :: u in s ==> u < 0x80
    ensures WellFormed(s)
  {
    if s != [] {
      assert s[0] in s;
      assert forall u :: u in s[1..] ==> u in s;
      AsciiWellFormed(s[1..]);
    }
  }
}
