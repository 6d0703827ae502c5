/**
 What a JSON text denotes, by the grammar of RFC 8259 and its own characters: a
 reference that shares nothing with the printer and the parser. Every text the
 codec prints denotes the value it was printed from.
 */
module JsonGrammar {
  import opened Option
  import opened Utf16
  import opened JsonValue
  import opened JsonText
  import opened Codec

  // ---- The grammar, without white space

  predicate Is(t: Text, c: char) {
    |t| == 1 && t[0] == c as int
  }

  /** The text spells a word of ASCII characters. */
  predicate Spells(t: Text, word: string) {
    |t| == |word| && forall i :: 0 <= i < |t| ==> t[i] == word[i] as int
  }

  /** The number a run of decimal digits stands for. */
  function Value(t: Text): int {
    if t == [] then 0 else 10 * Value(t[..|t| - 1]) + (t[|t| - 1] as int - '0' as int)
  }

  /** Digits without a leading zero, unless zero is all there is (section 6). */
  predicate Digits(t: Text, n: int) {
    && t != [] && (forall i :: 0 <= i < |t| ==> '0' as int <= t[i] <= '9' as int)
    && (t[0] == '0' as int ==> |t| == 1)
    && Value(t) == n
  }

  predicate Integer(t: Text, n: int) {
    if n < 0 then t != [] && t[0] == '-' as int && Digits(t[1..], -n) else Digits(t, n)
  }

  function Hex(u: Unit): int {
    if '0' as int <= u <= '9' as int then u as int - '0' as int
    else if 'a' as int <= u <= 'f' as int then u as int - 'a' as int + 10
    else if 'A' as int <= u <= 'F' as int then u as int - 'A' as int + 10
    else -1
  }

  /** One character of a string: itself, a short escape, or four hexadecimal digits (section 7). */
  predicate Character(t: Text, u: Unit) {
    || (|t| == 1 && t[0] == u && u >= 0x20 && u != '"' as int && u != '\\' as int)
    || (|t| == 2 && t[0] == '\\' as int
        && (|| (t[1] == '"' as int && u == 0x22)
            || (t[1] == '\\' as int && u == 0x5C)
            || (t[1] == '/' as int && u == 0x2F)
            || (t[1] == 'b' as int && u == 0x08)
            || (t[1] == 'f' as int && u == 0x0C)
            || (t[1] == 'n' as int && u == 0x0A)
            || (t[1] == 'r' as int && u == 0x0D)
            || (t[1] == 't' as int && u == 0x09)))
    || (|t| == 6 && t[0] == '\\' as int && t[1] == 'u' as int
        && Hex(t[2]) >= 0 && Hex(t[3]) >= 0 && Hex(t[4]) >= 0 && Hex(t[5]) >= 0
        && u == 4096 * Hex(t[2]) + 256 * Hex(t[3]) + 16 * Hex(t[4]) + Hex(t[5]))
  }

  predicate Characters(t: Text, s: Text)
    decreases |s|
  {
    if s == [] then t == []
    else exists k :: 1 <= k <= |t| && Character(t[..k], s[0]) && Characters(t[k..], s[1..])
  }

  predicate String(t: Text, s: Text) {
    |t| >= 2 && Is(t[..1], '"') && Is(t[|t| - 1..], '"') && Characters(t[1..|t| - 1], s)
  }

  /** A text denotes a value; the two zeros are written alike. */
  ghost predicate Denotes(t: Text, v: Json)
    decreases v, 0
  {
    match v
    case Null => Spells(t, "null")
    case Bool(b) => Spells(t, if b then "true" else "false")
    case Num(Int(n)) => Integer(t, n)
    case Num(NegativeZero) => Spells(t, "0")
    case Num(NotInteger) => false
    case Str(s) => String(t, s)
    case Arr(items) => |t| >= 2 && Is(t[..1], '[') && Is(t[|t| - 1..], ']') && Elements(t[1..|t| - 1], items)
    case Obj(fields) => |t| >= 2 && Is(t[..1], '{') && Is(t[|t| - 1..], '}') && Members(t[1..|t| - 1], fields)
    case Foreign => false
  }

  /** Values with a comma between each two (section 5). */
  ghost predicate Elements(t: Text, items: seq<Json>)
    decreases items, 0
  {
    if items == [] then t == []
    else if |items| == 1 then Denotes(t, items[0])
    else
      exists k ::
        0 <= k < |t| && t[k] == ',' as int && Denotes(t[..k], items[0]) && Elements(t[k + 1..], items[1..])
  }

  /** Members with a comma between each two (section 4). */
  ghost predicate Members(t: Text, fields: seq<Field>)
    decreases fields, 0
  {
    if fields == [] then t == []
    else if |fields| == 1 then Member(t, fields[0])
    else
      exists k ::
        0 <= k < |t| && t[k] == ',' as int && Member(t[..k], fields[0]) && Members(t[k + 1..], fields[1..])
  }

  ghost predicate Member(t: Text, f: Field)
    decreases f, 1
  {
    exists k :: 0 <= k < |t| && t[k] == ':' as int && String(t[..k], f.key) && Denotes(t[k + 1..], f.value)
  }

  // ---- Printed text denotes what was printed

  lemma {:induction false} DecimalDigits(n: nat)
    ensures Digits(Decimal(n), n)
  {
    if n >= 10 {
      DecimalDigits(n / 10);
      assert Decimal(n)[..|Decimal(n)| - 1] == Decimal(n / 10);
    } else {
      assert Decimal(n)[..0] == [];
      assert Value(Decimal(n)) == n;
    }
  }

  lemma IntegerDenotes(n: int)
    ensures Integer(IntegerText(n), n)
  {
    if n < 0 {
      DecimalDigits(-n);
      assert IntegerText(n)[1..] == Decimal(-n);
    } else {
      DecimalDigits(n);
    }
  }

  lemma EscapeDenotes(u: Unit)
    ensures Character(Escape(u), u)
  {
    if u < 0x20 && |Escape(u)| == 6 {
      assert Hex(HexDigit(u / 16)) == u / 16 && Hex(HexDigit(u % 16)) == u % 16;
    }
  }

  lemma {:induction false} EscapedDenotes(s: Text)
    ensures Characters(EscapeAll(s), s)
  {
    if s != [] {
      var t, k := EscapeAll(s), |Escape(s[0])|;
      EscapeDenotes(s[0]);
      EscapedDenotes(s[1..]);
      assert t[..k] == Escape(s[0]) && t[k..] == EscapeAll(s[1..]);
    }
  }

  lemma QuotedDenotes(s: Text)
    ensures String(Quoted(s), s)
  {
    EscapedDenotes(s);
    var t := Quoted(s);
    assert t[1..|t| - 1] == EscapeAll(s);
  }

  lemma Bracketed(open: Unit, inner: Text, close: Unit)
    ensures var t := [open] + (inner + [close]);
            |t| >= 2 && t[..1] == [open] && t[|t| - 1..] == [close] && t[1..|t| - 1] == inner
  {
  }

  /** The printed text of every value the codec prints denotes that value. */
  lemma {:induction false} PrintDenotes(v: Json)
    requires Printable(v)
    ensures Denotes(Print(v), v)
    decreases v, 0
  {
    match v
    case Null =>
    case Bool(_) =>
    case Num(x) =>
      if x.Int? {
        IntegerDenotes(x.n);
      }
    case Str(s) => QuotedDenotes(s);
    case Arr(items) =>
      PrintItemsDenote(items);
      Bracketed(OPEN_ARRAY, PrintItems(items), CLOSE_ARRAY);
    case Obj(fields) =>
      PrintFieldsDenote(fields);
      Bracketed(OPEN_OBJECT, PrintFields(fields), CLOSE_OBJECT);
  }

  lemma CutAt(left: Text, separator: Unit, right: Text)
    ensures var t := left + ([separator] + right);
            |left| < |t| && t[|left|] == separator && t[..|left|] == left && t[|left| + 1..] == right
  {
  }

  lemma {:induction false} PrintItemsDenote(items: seq<Json>)
    requires forall i :: 0 <= i < |items| ==> Printable(items[i])
    ensures Elements(PrintItems(items), items)
    decreases items, 0
  {
    hide Members, Member, String, Printable, PrintFields, PrintField, Quoted, EscapeAll, Decimal, Denotes, Print;
    if items != [] {
      PrintDenotes(items[0]);
      if |items| > 1 {
        PrintItemsDenote(items[1..]);
        CutAt(Print(items[0]), COMMA, PrintItems(items[1..]));
      }
    }
  }

  lemma {:induction false} PrintFieldDenotes(f: Field)
    requires Printable(f.value)
    ensures Member(PrintField(f), f)
    decreases f, 1
  {
    QuotedDenotes(f.key);
    PrintDenotes(f.value);
    CutAt(Quoted(f.key), COLON, Print(f.value));
  }

  lemma {:induction false} PrintFieldsDenote(fields: seq<Field>)
    requires forall i :: 0 <= i < |fields| ==> Printable(fields[i].value)
    ensures Members(PrintFields(fields), fields)
    decreases fields, 0
  {
    hide Member, PrintField, Denotes, Elements, String, Print, Printable, PrintItems, Quoted, EscapeAll, Decimal;
    if fields != [] {
      PrintFieldDenotes(fields[0]);
      if |fields| > 1 {
        PrintFieldsDenote(fields[1..]);
        CutAt(PrintField(fields[0]), COMMA, PrintFields(fields[1..]));
      }
    }
  }

  // ---- The parser reads every text of the grammar

  lemma {:induction false} DigitsAreDecimal(t: Text, n: int)
    requires Digits(t, n)
    ensures n >= 0 && t == Decimal(n)
    decreases |t|
  {
    var k := |t| - 1;
    if k == 0 {
      assert t[..0] == [] && Value(t[..0]) == 0;
      assert t == [t[0]];
    } else {
      var before := t[..k];
      DigitsAreDecimal(before, Value(before));
      assert before[0] == t[0] != '0' as int;
      assert t == before + [t[k]];
    }
  }

  lemma IntegerIsText(t: Text, n: int)
    requires Integer(t, n)
    ensures t == IntegerText(n)
  {
    if n < 0 {
      DigitsAreDecimal(t[1..], -n);
      assert t == [t[0]] + t[1..];
    } else {
      DigitsAreDecimal(t, n);
    }
  }

  lemma ReadsHex(t: Text, u: Unit)
    requires |t| == 4 && Hex(t[0]) >= 0 && Hex(t[1]) >= 0 && Hex(t[2]) >= 0 && Hex(t[3]) >= 0
    requires u == 4096 * Hex(t[0]) + 256 * Hex(t[1]) + 16 * Hex(t[2]) + Hex(t[3])
    ensures HexUnit(t) == Some(u)
  {
    ReadsHexDigit(t[0]);
    ReadsHexDigit(t[1]);
    ReadsHexDigit(t[2]);
    ReadsHexDigit(t[3]);
    hide Hex, HexValue;
  }

  lemma ReadsHexDigit(u: Unit)
    requires Hex(u) >= 0
    ensures HexValue(u) == Some(Hex(u))
  {
  }

  lemma ReadsCharacter(t: Text, u: Unit, rest: Text)
    requires Character(t, u)
    ensures t + rest != [] && (t + rest)[0] != QUOTE && ParseUnit(t + rest) == Some(Parsed(u, rest))
  {
    hide Hex, HexUnit;
    var s := t + rest;
    assert s[|t|..] == rest;
    assert forall i :: 0 <= i < |t| ==> s[i] == t[i];
    if |t| == 6 {
      assert s[2..6] == t[2..6];
      ReadsHex(t[2..6], u);
    }
  }

  lemma {:induction false} ReadsCharacters(t: Text, s: Text, rest: Text)
    requires Characters(t, s)
    ensures ParseString(t + ([QUOTE] + rest)) == Some(Parsed(s, rest))
    decreases |s|
  {
    hide Character, ParseUnit, Hex, HexUnit;
    var tail := [QUOTE] + rest;
    if s == [] {
      assert t + tail == tail && tail[1..] == rest;
    } else {
      var k :| 1 <= k <= |t| && Character(t[..k], s[0]) && Characters(t[k..], s[1..]);
      ReadsCharacter(t[..k], s[0], t[k..] + tail);
      ReadsCharacters(t[k..], s[1..], rest);
      assert t + tail == t[..k] + (t[k..] + tail);
      assert [s[0]] + s[1..] == s;
    }
  }

  lemma ReadsString(t: Text, s: Text, rest: Text)
    requires String(t, s)
    ensures t + rest != [] && (t + rest)[0] == QUOTE
    ensures ParseString((t + rest)[1..]) == Some(Parsed(s, rest))
  {
    var inner := t[1..|t| - 1];
    assert t == [t[..1][0]] + (inner + [t[|t| - 1..][0]]);
    assert (t + rest)[1..] == inner + ([QUOTE] + rest);
    ReadsCharacters(inner, s, rest);
  }

  /** A text that denotes a value starts with neither white space nor a closing bracket. */
  lemma DenotesLead(t: Text, v: Json)
    requires Denotes(t, v)
    ensures t != [] && !IsSpace(t[0]) && t[0] != CLOSE_ARRAY && t[0] != CLOSE_OBJECT
  {
    match v
    case Num(Int(n)) => IntegerIsText(t, n);
    case Str(_) => assert t[0] == t[..1][0];
    case Arr(_) => assert t[0] == t[..1][0];
    case Obj(_) => assert t[0] == t[..1][0];
    case _ =>
  }

  lemma {:induction false} ElementsLead(t: Text, items: seq<Json>)
    requires Elements(t, items) && items != []
    ensures t != [] && !IsSpace(t[0]) && t[0] != CLOSE_ARRAY
  {
    if |items| == 1 {
      DenotesLead(t, items[0]);
    } else {
      var k :| 0 <= k < |t| && t[k] == ',' as int && Denotes(t[..k], items[0]) && Elements(t[k + 1..], items[1..]);
      DenotesLead(t[..k], items[0]);
      assert t[0] == t[..k][0];
    }
  }

  lemma {:induction false} MembersLead(t: Text, fields: seq<Field>)
    requires Members(t, fields) && fields != []
    ensures t != [] && t[0] == QUOTE
  {
    if |fields| == 1 {
      MemberLead(t, fields[0]);
    } else {
      var k :| 0 <= k < |t| && t[k] == ',' as int && Member(t[..k], fields[0]) && Members(t[k + 1..], fields[1..]);
      MemberLead(t[..k], fields[0]);
    }
  }

  lemma MemberLead(t: Text, f: Field)
    requires Member(t, f)
    ensures t != [] && t[0] == QUOTE
  {
    var k :| 0 <= k < |t| && t[k] == ':' as int && String(t[..k], f.key) && Denotes(t[k + 1..], f.value);
    assert t[0] == t[..k][..1][0];
  }

  /**
   Whatever escapes a text uses, if it denotes a value then that is what the
   parser reads, in any following text.
   */
  lemma {:induction false} ParserReads(t: Text, v: Json, rest: Text, toNumber: Text -> Number)
    requires Denotes(t, v) && Printable(v) && EndsNumber(rest) && Exact(toNumber)
    ensures ParseValue(t + rest, toNumber) == Some(Parsed(Plain(v), rest))
    decreases v, 1
  {
    hide Elements, Members, String, Integer, ParseString, ParseItems, ParseFields, ParseNumber, Characters;
    hide ParseArray, ParseObject, ParseAtom, SkipSpace, DistinctKeys, PlainItems, PlainFields, IntegerText, Exact;
    match v
    case Null =>
      assert t == NULL_TEXT;
      ParsePrintedLiteral(NULL_TEXT, rest, toNumber);
    case Bool(b) =>
      assert t == if b then TRUE_TEXT else FALSE_TEXT;
      ParsePrintedLiteral(t, rest, toNumber);
    case Num(x) =>
      if x.Int? {
        IntegerIsText(t, x.n);
      } else {
        assert t == [ZERO];
      }
      ParsePrintedNumber(x, rest, toNumber);
    case Str(s) => ReadsString(t, s, rest);
    case Arr(items) =>
      Opened(t, rest);
      ParserReadsArray(t[1..|t| - 1], items, rest, toNumber);
    case Obj(fields) =>
      Opened(t, rest);
      ParserReadsObject(t[1..|t| - 1], fields, rest, toNumber);
  }

  lemma Opened(t: Text, rest: Text)
    requires |t| >= 2
    ensures (t + rest)[0] == t[..1][0]
    ensures (t + rest)[1..] == t[1..|t| - 1] + ([t[|t| - 1..][0]] + rest)
  {
  }

  lemma {:induction false} ParserReadsArray(inner: Text, items: seq<Json>, rest: Text, toNumber: Text -> Number)
    requires Elements(inner, items) && Exact(toNumber)
    requires forall i :: 0 <= i < |items| ==> Printable(items[i])
    ensures var s := inner + ([CLOSE_ARRAY] + rest);
            ParseArray(SkipSpace(s), toNumber) == Some(Parsed(Arr(PlainItems(items)), rest))
    decreases items, 1
  {
    var tail := [CLOSE_ARRAY] + rest;
    if items == [] {
      assert inner + tail == tail && tail[1..] == rest;
    } else {
      hide Denotes, Printable, ParseItems;
      ElementsLead(inner, items);
      assert (inner + tail)[0] == inner[0];
      ParserReadsElements(inner, items, rest, toNumber);
    }
  }

  lemma {:induction false} ParserReadsObject(inner: Text, fields: seq<Field>, rest: Text, toNumber: Text -> Number)
    requires Members(inner, fields) && DistinctKeys(fields) && Exact(toNumber)
    requires forall i :: 0 <= i < |fields| ==> Printable(fields[i].value)
    ensures var s := inner + ([CLOSE_OBJECT] + rest);
            ParseObject(SkipSpace(s), toNumber) == Some(Parsed(Obj(PlainFields(fields)), rest))
    decreases fields, 1
  {
    var tail := [CLOSE_OBJECT] + rest;
    if fields == [] {
      assert inner + tail == tail && tail[1..] == rest;
    } else {
      hide Member, Printable, ParseFields;
      MembersLead(inner, fields);
      assert (inner + tail)[0] == inner[0];
      ParserReadsMembers(inner, fields, rest, toNumber);
    }
  }

  /** A text cut at a separator, with more text after it. */
  lemma CutBefore(t: Text, k: nat, tail: Text)
    requires k < |t|
    ensures t + tail == t[..k] + ([t[k]] + (t[k + 1..] + tail))
    ensures ([t[k]] + (t[k + 1..] + tail))[1..] == t[k + 1..] + tail
    ensures t[k + 1..] != [] ==> (t[k + 1..] + tail)[0] == t[k + 1..][0]
  {
  }

  lemma {:induction false} ParserReadsElements(t: Text, items: seq<Json>, rest: Text, toNumber: Text -> Number)
    requires Elements(t, items) && items != [] && Exact(toNumber)
    requires forall i :: 0 <= i < |items| ==> Printable(items[i])
    ensures ParseItems(t + ([CLOSE_ARRAY] + rest), toNumber) == Some(Parsed(PlainItems(items), rest))
    decreases items, 0
  {
    hide Denotes, ParseValue, Exact;
    var tail := [CLOSE_ARRAY] + rest;
    if |items| == 1 {
      ParserReads(t, items[0], tail, toNumber);
      assert tail[1..] == rest;
      assert PlainItems(items) == [Plain(items[0])];
    } else {
      var k :| 0 <= k < |t| && t[k] == ',' as int && Denotes(t[..k], items[0]) && Elements(t[k + 1..], items[1..]);
      var next := t[k + 1..] + tail;
      CutBefore(t, k, tail);
      ParserReads(t[..k], items[0], [COMMA] + next, toNumber);
      ElementsLead(t[k + 1..], items[1..]);
      ParserReadsElements(t[k + 1..], items[1..], rest, toNumber);
    }
  }

  lemma {:induction false} ParserReadsMember(t: Text, f: Field, rest: Text, toNumber: Text -> Number)
    requires Member(t, f) && Printable(f.value) && EndsNumber(rest) && Exact(toNumber)
    ensures ParseField(t + rest, toNumber) == Some(Parsed(Field(f.key, Plain(f.value)), rest))
    decreases f, 2
  {
    hide Denotes, String, ParseValue, ParseString, Printable;
    var k :| 0 <= k < |t| && t[k] == ':' as int && String(t[..k], f.key) && Denotes(t[k + 1..], f.value);
    var value := t[k + 1..] + rest;
    CutBefore(t, k, rest);
    ReadsString(t[..k], f.key, [COLON] + value);
    DenotesLead(t[k + 1..], f.value);
    ParserReads(t[k + 1..], f.value, rest, toNumber);
  }

  lemma {:induction false} ParserReadsMembers(t: Text, fields: seq<Field>, rest: Text, toNumber: Text -> Number)
    requires Members(t, fields) && fields != [] && DistinctKeys(fields) && Exact(toNumber)
    requires forall i :: 0 <= i < |fields| ==> Printable(fields[i].value)
    ensures ParseFields(t + ([CLOSE_OBJECT] + rest), toNumber) == Some(Parsed(PlainFields(fields), rest))
    decreases fields, 0
  {
    hide Member, ParseField, Printable, Lookup, Without, Prepend, Exact, ParseValue, ParseItems, ParseString;
    hide Denotes, Elements, String, Plain, PlainItems, Normal, ParseNumber, ParseArray, ParseObject;
    var tail := [CLOSE_OBJECT] + rest;
    if |fields| == 1 {
      ParserReadsMember(t, fields[0], tail, toNumber);
      assert tail[1..] == rest;
      assert PlainFields(fields) == [Field(fields[0].key, Plain(fields[0].value))];
    } else {
      var k :| 0 <= k < |t| && t[k] == ',' as int && Member(t[..k], fields[0]) && Members(t[k + 1..], fields[1..]);
      var f, next := fields[0], t[k + 1..] + tail;
      CutBefore(t, k, tail);
      ParserReadsMember(t[..k], f, [COMMA] + next, toNumber);
      MembersLead(t[k + 1..], fields[1..]);
      ParserReadsMembers(t[k + 1..], fields[1..], rest, toNumber);
      ParseFieldsStep(t[..k] + ([COMMA] + next), Field(f.key, Plain(f.value)), next, toNumber);
      PrependPlain(fields);
    }
  }

  /** The canonical text of a value denotes its ordered form, by the grammar alone. */
  lemma CanonicalDenotes(v: Json, nfc: Text -> bool, toNumber: Text -> Number)
    requires Proper(v) && Exact(toNumber) && CanonicalJson(v, nfc).Some?
    ensures Denotes(CanonicalJson(v, nfc).value, Normal(v))
  {
    CanonicalTextParses(v, nfc, toNumber);
    NormalRestricted(v, 0, nfc);
    RestrictedPrintable(Normal(v), 0, nfc);
    PrintDenotes(Normal(v));
  }

  /** By the grammar a text denotes one value only, up to the sign of zero. */
  lemma DenotesOne(t: Text, v: Json, w: Json, toNumber: Text -> Number)
    requires Denotes(t, v) && Denotes(t, w) && Printable(v) && Printable(w) && Exact(toNumber)
    ensures Plain(v) == Plain(w)
  {
    ParserReads(t, v, [], toNumber);
    ParserReads(t, w, [], toNumber);
  }

  /** Every text the decoder accepts denotes, by the grammar alone, the object it returns. */
  lemma AcceptedDenotes(text: Text, w: Json, nfc: Text -> bool, toNumber: Text -> Number)
    requires Exact(toNumber) && DecodeCanonicalJson(text, nfc, toNumber) == Some(w)
    ensures Denotes(text, w)
  {
    AcceptedTexts(text, w, nfc, toNumber);
    CanonicalDenotes(w, nfc, toNumber);
  }
}
