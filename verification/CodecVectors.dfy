/**
 The codec on concrete input: canonical texts, bounds, bytes and base64url as the
 standards write them.
 */
module CodecVectors {
  import opened Option
  import opened Utf16
  import opened JsonValue
  import opened JsonText
  import opened Codec
  import B = Base64Url

  // ---- ASCII text is its own UTF-8

  lemma {:induction false} AsciiBytes(s: Text)
    requires forall i :: 0 <= i < |s| ==> s[i] < 0x80
    ensures WellFormed(s) && |Utf8(s)| == |s| && forall i :: 0 <= i < |s| ==> Utf8(s)[i] == s[i]
    ensures Scalars(s) == s
  {
    if s != [] {
      AsciiBytes(s[1..]);
      assert EncodeScalar(FirstScalar(s)) == [s[0]];
    }
  }

  /** A value admitted, whose text is short and ASCII, is encoded as that text. */
  lemma EncodedAs(v: Json, word: string, nfc: Text -> bool)
    requires Restricted(v, 0, nfc) && Print(Ordered(v)) == Ascii(word)
    requires 0 < |word| <= 65_536 && forall i :: 0 <= i < |word| ==> word[i] as int < 0x80
    ensures CanonicalJson(v, nfc) == Some(Ascii(word))
  {
    hide Print, Ordered;
    AsciiBytes(Ascii(word));
  }

  // ---- Canonical texts

  lemma PrintThree(x: Json, y: Json, z: Json)
    ensures PrintItems([x, y, z]) == Print(x) + ([COMMA] + (Print(y) + ([COMMA] + Print(z))))
  {
    assert [x, y, z][1..] == [y, z] && [y, z][1..] == [z];
    assert PrintItems([z]) == Print(z);
    assert PrintItems([y, z]) == Print(y) + ([COMMA] + Print(z));
  }

  lemma PrintedThree(x: Json, y: Json, z: Json)
    ensures Print(Arr([x, y, z]))
         == [OPEN_ARRAY] + ((Print(x) + ([COMMA] + (Print(y) + ([COMMA] + Print(z))))) + [CLOSE_ARRAY])
  {
    PrintThree(x, y, z);
  }

  lemma OrderedThree(x: Json, y: Json, z: Json)
    requires Ordered(x) == x && Ordered(y) == y && Ordered(z) == z
    ensures Ordered(Arr([x, y, z])) == Arr([x, y, z])
  {
    assert OrderedItems([x, y, z]) == [x, y, z];
  }

  lemma WordsText()
    ensures Print(Arr([Null, Bool(true), Bool(false)]))
         == [0x5B, 0x6E, 0x75, 0x6C, 0x6C, 0x2C, 0x74, 0x72, 0x75, 0x65, 0x2C, 0x66, 0x61, 0x6C, 0x73, 0x65, 0x5D]
  {
    PrintedThree(Null, Bool(true), Bool(false));
  }

  lemma WordsLiteral()
    ensures Ascii("[null,true,false]")
         == [0x5B, 0x6E, 0x75, 0x6C, 0x6C, 0x2C, 0x74, 0x72, 0x75, 0x65, 0x2C, 0x66, 0x61, 0x6C, 0x73, 0x65, 0x5D]
  {
  }

  lemma ThreeRestricted(x: Json, y: Json, z: Json, nfc: Text -> bool)
    requires Restricted(x, 1, nfc) && Restricted(y, 1, nfc) && Restricted(z, 1, nfc)
    ensures Restricted(Arr([x, y, z]), 0, nfc)
  {
  }

  /** The three words, with commas and brackets. */
  lemma WordsEncoded(nfc: Text -> bool)
    ensures CanonicalJson(Arr([Null, Bool(true), Bool(false)]), nfc) == Some(Ascii("[null,true,false]"))
  {
    OrderedThree(Null, Bool(true), Bool(false));
    ThreeRestricted(Null, Bool(true), Bool(false), nfc);
    hide Print, Ascii, Ordered, CanonicalJson, Restricted;
    WordsText();
    WordsLiteral();
    EncodedAs(Arr([Null, Bool(true), Bool(false)]), "[null,true,false]", nfc);
  }

  lemma NumbersText()
    ensures Print(Arr([Num(Int(-12)), Num(Int(105)), Num(NegativeZero)]))
         == [0x5B, 0x2D, 0x31, 0x32, 0x2C, 0x31, 0x30, 0x35, 0x2C, 0x30, 0x5D]
  {
    assert Decimal(1) == [0x31] && Decimal(12) == Decimal(1) + [0x32];
    assert Decimal(10) == Decimal(1) + [0x30] && Decimal(105) == Decimal(10) + [0x35];
    PrintedThree(Num(Int(-12)), Num(Int(105)), Num(NegativeZero));
  }

  lemma NumbersLiteral()
    ensures Ascii("[-12,105,0]") == [0x5B, 0x2D, 0x31, 0x32, 0x2C, 0x31, 0x30, 0x35, 0x2C, 0x30, 0x5D]
  {
  }

  /** Numbers in decimal, and negative zero as zero. */
  lemma NumbersEncoded(nfc: Text -> bool)
    ensures CanonicalJson(Arr([Num(Int(-12)), Num(Int(105)), Num(NegativeZero)]), nfc) == Some(Ascii("[-12,105,0]"))
  {
    OrderedThree(Num(Int(-12)), Num(Int(105)), Num(NegativeZero));
    ThreeRestricted(Num(Int(-12)), Num(Int(105)), Num(NegativeZero), nfc);
    hide Print, Ascii, Ordered, CanonicalJson, Restricted;
    NumbersText();
    NumbersLiteral();
    EncodedAs(Arr([Num(Int(-12)), Num(Int(105)), Num(NegativeZero)]), "[-12,105,0]", nfc);
  }

  lemma PlainQuoted(u: Unit)
    requires IsLower(u)
    ensures Quoted([u]) == [QUOTE, u, QUOTE]
  {
    EscapeCons(u, []);
    assert [u] + [] == [u];
  }

  lemma EscapeCons(u: Unit, s: Text)
    ensures EscapeAll([u] + s) == Escape(u) + EscapeAll(s)
  {
    assert ([u] + s)[1..] == s;
  }

  lemma TwoOrdered(a: Field, b: Field)
    requires a.key == [0x61] && b.key == [0x62] && Ordered(a.value) == a.value && Ordered(b.value) == b.value
    ensures Ordered(Obj([b, a])) == Obj([a, b])
  {
    assert OrderedFields([b, a]) == [b, a];
    assert [b, a][1..] == [a] && [a][1..] == [];
    assert InsertField(a, []) == [a];
    assert SortFields([]) == [] && SortFields([a]) == [a];
    assert KeyBefore(a.key, b.key) && !KeyBefore(b.key, a.key);
    assert InsertField(b, []) == [b];
    assert InsertField(b, [a]) == [a] + [b];
  }

  lemma FieldsText(a: Field, b: Field)
    requires a == Field([0x61], Arr([])) && b == Field([0x62], Obj([]))
    ensures Print(Obj([a, b]))
         == [0x7B, 0x22, 0x61, 0x22, 0x3A, 0x5B, 0x5D, 0x2C, 0x22, 0x62, 0x22, 0x3A, 0x7B, 0x7D, 0x7D]
  {
    PlainQuoted(0x61);
    PlainQuoted(0x62);
    assert PrintField(a) == [0x22, 0x61, 0x22, 0x3A, 0x5B, 0x5D];
    assert PrintField(b) == [0x22, 0x62, 0x22, 0x3A, 0x7B, 0x7D];
    assert [a, b][1..] == [b];
    assert PrintFields([b]) == PrintField(b);
    assert PrintFields([a, b]) == PrintField(a) + ([COMMA] + PrintField(b));
  }

  lemma FieldsLiteral()
    ensures Ascii("{\"a\":[],\"b\":{}}")
         == [0x7B, 0x22, 0x61, 0x22, 0x3A, 0x5B, 0x5D, 0x2C, 0x22, 0x62, 0x22, 0x3A, 0x7B, 0x7D, 0x7D]
  {
  }

  lemma FieldsRestricted(a: Field, b: Field, nfc: Text -> bool)
    requires a == Field([0x61], Arr([])) && b == Field([0x62], Obj([]))
    ensures Restricted(Obj([b, a]), 0, nfc)
  {
    assert CanonicalKey(a.key) && CanonicalKey(b.key);
    assert Restricted(Arr([]), 1, nfc) && Restricted(Obj([]), 1, nfc);
  }

  /** Keys come in order, with a comma between fields and a colon after each key. */
  lemma FieldsEncoded(nfc: Text -> bool)
    ensures var a, b := Field(Ascii("a"), Arr([])), Field(Ascii("b"), Obj([]));
            CanonicalJson(Obj([b, a]), nfc) == Some(Ascii("{\"a\":[],\"b\":{}}"))
  {
    var a, b := Field([0x61], Arr([])), Field([0x62], Obj([]));
    assert Ascii("a") == [0x61] && Ascii("b") == [0x62];
    hide Print, Ascii, Ordered, CanonicalJson, Restricted;
    assert Ordered(Obj([b, a])) == Obj([a, b]) by {
      EmptyOrdered();
      TwoOrdered(a, b);
    }
    FieldsRestricted(a, b, nfc);
    FieldsText(a, b);
    FieldsLiteral();
    EncodedAs(Obj([b, a]), "{\"a\":[],\"b\":{}}", nfc);
  }

  lemma EmptyOrdered()
    ensures Ordered(Arr([])) == Arr([]) && Ordered(Obj([])) == Obj([])
  {
  }

  lemma EscapeThree(u: Unit, v: Unit, w: Unit, s: Text)
    ensures EscapeAll([u, v, w] + s) == Escape(u) + (Escape(v) + (Escape(w) + EscapeAll(s)))
  {
    EscapeCons(w, s);
    EscapeCons(v, [w] + s);
    EscapeCons(u, [v] + ([w] + s));
    assert [u] + ([v] + ([w] + s)) == [u, v, w] + s;
  }

  lemma ShortText()
    ensures Print(Str([0x22, 0x5C, 0x08, 0x09, 0x0A, 0x0C, 0x0D]))
         == [0x22, 0x5C, 0x22, 0x5C, 0x5C, 0x5C, 0x62, 0x5C, 0x74, 0x5C, 0x6E, 0x5C, 0x66, 0x5C, 0x72, 0x22]
  {
    hide Decimal, EscapeAll;
    var tail: Text := [0x0A, 0x0C, 0x0D];
    EscapedTail();
    var more: Text := [0x5C, 0x08, 0x09] + tail;
    EscapeThree(0x5C, 0x08, 0x09, tail);
    EscapeCons(0x22, more);
    assert [0x22] + more == [0x22, 0x5C, 0x08, 0x09, 0x0A, 0x0C, 0x0D];
  }

  lemma EscapedTail()
    ensures EscapeAll([0x0A, 0x0C, 0x0D]) == [0x5C, 0x6E, 0x5C, 0x66, 0x5C, 0x72]
  {
    var tail: Text := [0x0A, 0x0C, 0x0D];
    EscapeThree(0x0A, 0x0C, 0x0D, []);
    assert tail + [] == tail && EscapeAll([]) == [];
  }

  lemma ShortLiteral()
    ensures Ascii("\"\\\"\\\\\\b\\t\\n\\f\\r\"")
         == [0x22, 0x5C, 0x22, 0x5C, 0x5C, 0x5C, 0x62, 0x5C, 0x74, 0x5C, 0x6E, 0x5C, 0x66, 0x5C, 0x72, 0x22]
  {
  }

  lemma TextOrdered(s: Text, nfc: Text -> bool)
    requires nfc(s) && forall i :: 0 <= i < |s| ==> s[i] < 0x80
    ensures Restricted(Str(s), 0, nfc) && Ordered(Str(s)) == Str(s)
  {
    AsciiBytes(s);
  }

  /** The seven short escapes. */
  lemma ShortEscapes(nfc: Text -> bool)
    requires nfc([0x22, 0x5C, 0x08, 0x09, 0x0A, 0x0C, 0x0D])
    ensures CanonicalJson(Str([0x22, 0x5C, 0x08, 0x09, 0x0A, 0x0C, 0x0D]), nfc)
         == Some(Ascii("\"\\\"\\\\\\b\\t\\n\\f\\r\""))
  {
    hide Print, Ascii, Ordered, CanonicalJson, Restricted;
    var s: Text := [0x22, 0x5C, 0x08, 0x09, 0x0A, 0x0C, 0x0D];
    TextOrdered(s, nfc);
    ShortText();
    ShortLiteral();
    EncodedAs(Str(s), "\"\\\"\\\\\\b\\t\\n\\f\\r\"", nfc);
  }

  lemma OtherText()
    ensures Print(Str([0x00, 0x1F, 0x2F, 0x7A]))
         == [0x22, 0x5C, 0x75, 0x30, 0x30, 0x30, 0x30, 0x5C, 0x75, 0x30, 0x30, 0x31, 0x66, 0x2F, 0x7A, 0x22]
  {
    hide Decimal, EscapeAll;
    var tail: Text := [0x1F, 0x2F, 0x7A];
    OtherTail();
    EscapeCons(0x00, tail);
    assert [0x00] + tail == [0x00, 0x1F, 0x2F, 0x7A];
  }

  lemma OtherTail()
    ensures EscapeAll([0x1F, 0x2F, 0x7A]) == [0x5C, 0x75, 0x30, 0x30, 0x31, 0x66, 0x2F, 0x7A]
  {
    var tail: Text := [0x1F, 0x2F, 0x7A];
    EscapeThree(0x1F, 0x2F, 0x7A, []);
    assert tail + [] == tail && EscapeAll([]) == [];
  }

  lemma OtherLiteral()
    ensures Ascii("\"\\u0000\\u001f/z\"")
         == [0x22, 0x5C, 0x75, 0x30, 0x30, 0x30, 0x30, 0x5C, 0x75, 0x30, 0x30, 0x31, 0x66, 0x2F, 0x7A, 0x22]
  {
  }

  /** Other control characters take four hexadecimal digits; a slash and a letter stand for themselves. */
  lemma OtherCharacters(nfc: Text -> bool)
    requires nfc([0x00, 0x1F, 0x2F, 0x7A])
    ensures CanonicalJson(Str([0x00, 0x1F, 0x2F, 0x7A]), nfc) == Some(Ascii("\"\\u0000\\u001f/z\""))
  {
    hide Print, Ascii, Ordered, CanonicalJson, Restricted;
    var s: Text := [0x00, 0x1F, 0x2F, 0x7A];
    TextOrdered(s, nfc);
    OtherText();
    OtherLiteral();
    EncodedAs(Str(s), "\"\\u0000\\u001f/z\"", nfc);
  }

  // ---- Bounds

  function Nested(n: nat): Json {
    if n == 0 then Null else Arr([Nested(n - 1)])
  }

  lemma {:induction false} NestedRestricted(n: nat, depth: nat, nfc: Text -> bool)
    ensures Restricted(Nested(n), depth, nfc) <==> depth + n <= 12
  {
    if n > 0 {
      NestedRestricted(n - 1, depth + 1, nfc);
      assert Nested(n).items[0] == Nested(n - 1);
    }
  }

  lemma {:induction false} NestedPrint(n: nat)
    ensures Ordered(Nested(n)) == Nested(n)
    ensures |Print(Nested(n))| == 2 * n + 4
    ensures forall i :: 0 <= i < |Print(Nested(n))| ==> Print(Nested(n))[i] < 0x80
  {
    if n > 0 {
      NestedPrint(n - 1);
      assert OrderedItems([Nested(n - 1)]) == [Nested(n - 1)];
    }
  }

  /** Nesting is admitted up to twelve levels. */
  lemma NestingBound(n: nat, nfc: Text -> bool)
    ensures CanonicalJson(Nested(n), nfc).Some? <==> n <= 12
  {
    NestedRestricted(n, 0, nfc);
    if n <= 12 {
      NestedPrint(n);
      AsciiBytes(Print(Nested(n)));
    }
  }

  /** Arrays and objects hold up to sixty-four items. */
  lemma ItemsBound(n: nat, nfc: Text -> bool)
    ensures Restricted(Arr(seq(n, _ => Null)), 0, nfc) <==> n <= 64
  {
  }

  lemma FieldsBound(fields: seq<Field>, nfc: Text -> bool)
    requires forall i :: 0 <= i < |fields| ==> CanonicalKey(fields[i].key) && fields[i].value == Null
    ensures Restricted(Obj(fields), 0, nfc) <==> |fields| <= 64
  {
  }

  /** Numbers are admitted exactly when they are safe integers. */
  lemma NumberBound(n: int, nfc: Text -> bool)
    ensures Restricted(Num(Int(n)), 0, nfc) <==> -9_007_199_254_740_991 <= n <= 9_007_199_254_740_991
    ensures Restricted(Num(NegativeZero), 0, nfc) && !Restricted(Num(NotInteger), 0, nfc)
    ensures !Restricted(Foreign, 0, nfc)
  {
  }

  /** Text is admitted when it is well formed and normal. */
  lemma TextRule(s: Text, nfc: Text -> bool)
    ensures Restricted(Str(s), 0, nfc) <==> WellFormed(s) && nfc(s)
  {
  }

  /** A key is a lower-case letter and then lower-case letters, digits and underscores. */
  lemma KeyRule(key: string)
    requires forall i :: 0 <= i < |key| ==> key[i] as int < 0x80
    ensures CanonicalKey(Ascii(key))
       <==> && key != "" && 'a' <= key[0] <= 'z'
            && forall i :: 0 < i < |key| ==> 'a' <= key[i] <= 'z' || '0' <= key[i] <= '9' || key[i] == '_'
  {
    assert forall i :: 0 <= i < |key| ==> Ascii(key)[i] == key[i] as int;
  }

  lemma {:induction false} LettersEscape(n: nat)
    ensures EscapeAll(seq(n, _ => 0x61)) == seq(n, _ => 0x61)
  {
    if n > 0 {
      var s: Text := seq(n, _ => 0x61);
      LettersEscape(n - 1);
      assert s[1..] == seq(n - 1, _ => 0x61);
    }
  }

  /** A text is encoded up to 65,536 bytes, quotes included. */
  lemma TextBound(n: nat, nfc: Text -> bool)
    requires nfc(seq(n, _ => 0x61))
    ensures CanonicalJson(Str(seq(n, _ => 0x61)), nfc).Some? <==> n + 2 <= 65_536
  {
    var s: Text := seq(n, _ => 0x61);
    LettersEscape(n);
    AsciiBytes(s);
    AsciiBytes(Print(Str(s)));
    assert Restricted(Str(s), 0, nfc);
  }

  // ---- Bytes

  /** UTF-8 of one, two, three and four bytes. */
  lemma Utf8Vectors()
    ensures Utf8([0x41]) == [0x41] && WellFormed([0x41])
    ensures WellFormed([0xE9]) && Utf8([0xE9]) == [0xC3, 0xA9]
    ensures WellFormed([0x20AC]) && Utf8([0x20AC]) == [0xE2, 0x82, 0xAC]
    ensures WellFormed([0xD83D, 0xDE00]) && Utf8([0xD83D, 0xDE00]) == [0xF0, 0x9F, 0x98, 0x80]
  {
    assert Utf8([]) == [];
    assert AfterFirst([0x41]) == [] && AfterFirst([0xE9]) == [] && AfterFirst([0x20AC]) == [];
    var pair: Text := [0xD83D, 0xDE00];
    assert pair[2..] == [];
    assert WellFormed(pair);
    assert FirstScalar(pair) == 0x1F600;
    assert AfterFirst(pair) == [];
  }

  /** What is hashed: the domain, the version, a NUL and the text, all in UTF-8. */
  lemma FrameBytes(version: Text, text: Text)
    requires WellFormed(version) && WellFormed(text)
    ensures Frame(version, text) == DomainBytes() + (Utf8(version) + [0] + Utf8(text))
    ensures |DomainBytes()| == |"controlgraph.contract-sha256/v1\0"|
    ensures forall i :: 0 <= i < |DomainBytes()| ==> DomainBytes()[i] == "controlgraph.contract-sha256/v1\0"[i] as int
  {
    hide Utf8;
    FramedPartsShape(DomainBytes(), Utf8(version), Utf8(text));
    DomainIsAscii();
  }

  lemma DomainIsAscii()
    ensures |DomainBytes()| == |"controlgraph.contract-sha256/v1\0"|
    ensures forall i :: 0 <= i < |DomainBytes()| ==> DomainBytes()[i] == "controlgraph.contract-sha256/v1\0"[i] as int
  {
    AsciiBytes(DIGEST_DOMAIN);
  }

  // ---- Base64url by its alphabet (section 5 of RFC 4648)

  const UPPER := "ABCDEFGHIJKLMNOPQRSTUVWXYZ"
  const LOWER := "abcdefghijklmnopqrstuvwxyz"
  const DIGITS := "0123456789"
  const ALPHABET := UPPER + LOWER + DIGITS + "-_"

  /** Each character is the alphabet's letter for its group of six bits. */
  lemma AlphabetUsed(b: seq<Byte>)
    ensures |B.EncodeBase64Url(b)| == |B.Split(b)|
    ensures forall i :: 0 <= i < |B.Split(b)| ==> B.EncodeBase64Url(b)[i] == ALPHABET[B.Split(b)[i]] as int
  {
    B.EncodeIsBody(b);
    forall i | 0 <= i < |B.Split(b)|
      ensures B.EncodeBase64Url(b)[i] == ALPHABET[B.Split(b)[i]] as int
    {
      UrlLetter(B.Split(b)[i]);
    }
  }

  lemma UrlLetter(d: int)
    requires 0 <= d < 64
    ensures B.ToUrlUnit(B.StandardUnit(d)) == ALPHABET[d] as int
  {
    hide UPPER, LOWER, DIGITS;
    LetterCounts();
    if d < 26 {
      UpperLetter(d);
      assert ALPHABET[d] == UPPER[d];
    } else if d < 52 {
      LowerLetter(d - 26);
      assert ALPHABET[d] == LOWER[d - 26];
    } else if d < 62 {
      DigitLetter(d - 52);
      assert ALPHABET[d] == DIGITS[d - 52];
    }
  }

  lemma LetterCounts()
    ensures |UPPER| == |LOWER| == 26 && |DIGITS| == 10
  {
  }

  lemma UpperLetter(d: int)
    requires 0 <= d < 26
    ensures UPPER[d] as int == 'A' as int + d
  {
  }

  lemma LowerLetter(d: int)
    requires 0 <= d < 26
    ensures LOWER[d] as int == 'a' as int + d
  {
  }

  lemma DigitLetter(d: int)
    requires 0 <= d < 10
    ensures DIGITS[d] as int == '0' as int + d
  {
  }

  /** Three bytes and their four groups are one number; a short end is filled with zero bits. */
  lemma GroupsOfBits(p: Byte, q: Byte, r: Byte, more: seq<Byte>)
    ensures var d := B.Split([p, q, r] + more);
            && |d| == 4 + |B.Split(more)| && d[4..] == B.Split(more)
            && 262_144 * d[0] + 4_096 * d[1] + 64 * d[2] + d[3] == 65_536 * p + 256 * q + r
    ensures var d := B.Split([p, q]); |d| == 3 && 4_096 * d[0] + 64 * d[1] + d[2] == 4 * (256 * p + q)
    ensures var d := B.Split([p]); |d| == 2 && 64 * d[0] + d[1] == 16 * p
    ensures B.Split([]) == []
  {
    assert ([p, q, r] + more)[3..] == more;
  }
}
