/**
 `JSON.stringify` on restricted values and `JSON.parse` on arbitrary text
 (section 25.5 of ECMA-262, grammar of RFC 8259), and the proof that reading
 undoes printing.
 */
module JsonText {
  import opened Option
  import opened Utf16
  import opened JsonValue

  const QUOTE: Unit := 0x22
  const BACKSLASH: Unit := 0x5C
  const OPEN_ARRAY: Unit := 0x5B
  const CLOSE_ARRAY: Unit := 0x5D
  const OPEN_OBJECT: Unit := 0x7B
  const CLOSE_OBJECT: Unit := 0x7D
  const COMMA: Unit := 0x2C
  const COLON: Unit := 0x3A
  const MINUS: Unit := 0x2D
  const PLUS: Unit := 0x2B
  const POINT: Unit := 0x2E
  const ZERO: Unit := 0x30
  const LOWER_U: Unit := 0x75
  const NULL_TEXT: Text := [0x6E, 0x75, 0x6C, 0x6C]
  const TRUE_TEXT: Text := [0x74, 0x72, 0x75, 0x65]
  const FALSE_TEXT: Text := [0x66, 0x61, 0x6C, 0x73, 0x65]

  // ---- Printing

  function Decimal(n: nat): (s: Text)
    ensures s != [] && forall i :: 0 <= i < |s| ==> IsDigit(s[i])
    ensures s[0] == ZERO <==> n == 0
  {
    if n < 10 then [ZERO + n] else Decimal(n / 10) + [ZERO + n % 10]
  }

  function IntegerText(n: int): Text {
    if n < 0 then [MINUS] + Decimal(-n) else Decimal(n)
  }

  function HexDigit(d: int): (u: Unit)
    requires 0 <= d < 16
  {
    if d < 10 then 0x30 + d else 0x57 + d
  }

  /** How one code unit of a well-formed string is written. */
  function Escape(u: Unit): Text {
    if u == 0x08 then [BACKSLASH, 0x62]
    else if u == 0x09 then [BACKSLASH, 0x74]
    else if u == 0x0A then [BACKSLASH, 0x6E]
    else if u == 0x0C then [BACKSLASH, 0x66]
    else if u == 0x0D then [BACKSLASH, 0x72]
    else if u == QUOTE || u == BACKSLASH then [BACKSLASH, u]
    else if u < 0x20 then [BACKSLASH, LOWER_U, ZERO, ZERO, HexDigit(u / 16), HexDigit(u % 16)]
    else [u]
  }

  function EscapeAll(s: Text): Text {
    if s == [] then [] else Escape(s[0]) + EscapeAll(s[1..])
  }

  function Quoted(s: Text): Text {
    [QUOTE] + (EscapeAll(s) + [QUOTE])
  }

  function Print(v: Json): Text
    decreases v, 0
  {
    match v
    case Null => NULL_TEXT
    case Bool(b) => if b then TRUE_TEXT else FALSE_TEXT
    case Num(x) => if x.Int? then IntegerText(x.n) else [ZERO]
    case Str(s) => Quoted(s)
    case Arr(items) => [OPEN_ARRAY] + (PrintItems(items) + [CLOSE_ARRAY])
    case Obj(fields) => [OPEN_OBJECT] + (PrintFields(fields) + [CLOSE_OBJECT])
    case Foreign => []
  }

  function PrintItems(items: seq<Json>): Text
    decreases items, 0
  {
    if items == [] then []
    else if |items| == 1 then Print(items[0])
    else Print(items[0]) + ([COMMA] + PrintItems(items[1..]))
  }

  function PrintField(f: Field): Text
    decreases f, 1
  {
    Quoted(f.key) + ([COLON] + Print(f.value))
  }

  function PrintFields(fields: seq<Field>): Text
    decreases fields, 0
  {
    if fields == [] then []
    else if |fields| == 1 then PrintField(fields[0])
    else PrintField(fields[0]) + ([COMMA] + PrintFields(fields[1..]))
  }

  // ---- Parsing

  /** A value read from the front of a text, and the text after it. */
  datatype Parsed<+T> = Parsed(value: T, rest: Text)

  predicate IsSpace(u: Unit) {
    u in {0x20, 0x09, 0x0A, 0x0D}
  }

  function SkipSpace(s: Text): (r: Text)
    ensures |r| <= |s|
  {
    if s != [] && IsSpace(s[0]) then SkipSpace(s[1..]) else s
  }

  predicate StartsWith(s: Text, prefix: Text) {
    |prefix| <= |s| && s[..|prefix|] == prefix
  }

  function HexValue(u: Unit): Option<nat> {
    if IsDigit(u) then Some(u - 0x30)
    else if 0x61 <= u <= 0x66 then Some(u - 0x57)
    else if 0x41 <= u <= 0x46 then Some(u - 0x37)
    else None
  }

  /** The code unit named by four hexadecimal digits. */
  function HexUnit(s: Text): Option<Unit>
    requires |s| == 4
  {
    match (HexValue(s[0]), HexValue(s[1]), HexValue(s[2]), HexValue(s[3]))
    case (Some(a), Some(b), Some(c), Some(d)) =>
      var code := a * 0x1000 + b * 0x100 + c * 0x10 + d;
      if code < 0x1_0000 then Some(code) else None
    case _ => None
  }

  function SimpleEscape(u: Unit): Option<Unit> {
    if u == QUOTE || u == BACKSLASH || u == 0x2F then Some(u)
    else if u == 0x62 then Some(0x08)
    else if u == 0x66 then Some(0x0C)
    else if u == 0x6E then Some(0x0A)
    else if u == 0x72 then Some(0x0D)
    else if u == 0x74 then Some(0x09)
    else None
  }

  /** One character of a string body: a literal unit or an escape. */
  function ParseUnit(s: Text): (r: Option<Parsed<Unit>>)
    requires s != []
    ensures r.Some? ==> |r.value.rest| < |s|
  {
    if s[0] < 0x20 then None
    else if s[0] != BACKSLASH then Some(Parsed(s[0], s[1..]))
    else if |s| < 2 then None
    else if s[1] == LOWER_U then
      if |s| < 6 then None
      else
        match HexUnit(s[2..6])
        case Some(u) => Some(Parsed(u, s[6..]))
        case None => None
    else
      match SimpleEscape(s[1])
      case Some(u) => Some(Parsed(u, s[2..]))
      case None => None
  }

  /** The rest of a string, after its opening quote. */
  function ParseString(s: Text): (r: Option<Parsed<Text>>)
    ensures r.Some? ==> |r.value.rest| < |s|
    decreases |s|
  {
    if s == [] then None
    else if s[0] == QUOTE then Some(Parsed([], s[1..]))
    else
      match ParseUnit(s)
      case None => None
      case Some(first) =>
        match ParseString(first.rest)
        case None => None
        case Some(more) => Some(Parsed([first.value] + more.value, more.rest))
  }

  function DigitRun(s: Text): (n: nat)
    ensures n <= |s|
  {
    if s == [] || !IsDigit(s[0]) then 0 else 1 + DigitRun(s[1..])
  }

  /** The length of a fraction at the front of `s`; none if it lacks digits. */
  function ScanFraction(s: Text): (n: Option<nat>)
    ensures n.Some? ==> n.value <= |s|
  {
    if s == [] || s[0] != POINT then Some(0)
    else
      var digits := DigitRun(s[1..]);
      if digits == 0 then None else Some(1 + digits)
  }

  function ScanExponent(s: Text): (n: Option<nat>)
    ensures n.Some? ==> n.value <= |s|
  {
    if s == [] || s[0] !in {0x65, 0x45} then Some(0)
    else
      var sign := if |s| > 1 && s[1] in {PLUS, MINUS} then 1 else 0;
      var digits := DigitRun(s[1 + sign..]);
      if digits == 0 then None else Some(1 + sign + digits)
  }

  /** The length of the number literal `s` starts with. */
  function ScanNumber(s: Text): (n: Option<nat>)
    ensures n.Some? ==> 0 < n.value <= |s|
  {
    var sign := if s != [] && s[0] == MINUS then 1 else 0;
    var run := DigitRun(s[sign..]);
    var whole := if run == 0 then 0 else if s[sign] == ZERO then 1 else run;
    if whole == 0 then None
    else
      match ScanFraction(s[sign + whole..])
      case None => None
      case Some(fraction) =>
        match ScanExponent(s[sign + whole + fraction..])
        case None => None
        case Some(exponent) => Some(sign + whole + fraction + exponent)
  }

  /** Conversion of a number literal to a double, exact on safe integers. */
  ghost predicate Exact(toNumber: Text -> Number) {
    forall n: int {:trigger IntegerText(n)} ::
      -MAX_SAFE_INTEGER <= n <= MAX_SAFE_INTEGER ==> toNumber(IntegerText(n)) == Int(n)
  }

  function ParseNumber(s: Text, toNumber: Text -> Number): (r: Option<Parsed<Json>>)
    ensures r.Some? ==> |r.value.rest| < |s|
  {
    match ScanNumber(s)
    case Some(n) => Some(Parsed(Num(toNumber(s[..n])), s[n..]))
    case None => None
  }

  function Lookup(fields: seq<Field>, key: Text): Option<Json> {
    if fields == [] then None
    else if fields[0].key == key then Some(fields[0].value)
    else Lookup(fields[1..], key)
  }

  function Without(fields: seq<Field>, key: Text): seq<Field> {
    if fields == [] then []
    else if fields[0].key == key then Without(fields[1..], key)
    else [fields[0]] + Without(fields[1..], key)
  }

  /** A property followed by later ones: the last value of a repeated key wins. */
  function Prepend(f: Field, later: seq<Field>): seq<Field> {
    match Lookup(later, f.key)
    case None => [f] + later
    case Some(v) => [Field(f.key, v)] + Without(later, f.key)
  }

  /** A number, or one of the three words. */
  function ParseAtom(s: Text, toNumber: Text -> Number): (r: Option<Parsed<Json>>)
    ensures r.Some? ==> |r.value.rest| < |s|
  {
    if StartsWith(s, NULL_TEXT) then Some(Parsed(Null, s[4..]))
    else if StartsWith(s, TRUE_TEXT) then Some(Parsed(Bool(true), s[4..]))
    else if StartsWith(s, FALSE_TEXT) then Some(Parsed(Bool(false), s[5..]))
    else ParseNumber(s, toNumber)
  }

  function ParseValue(s: Text, toNumber: Text -> Number): (r: Option<Parsed<Json>>)
    ensures r.Some? ==> |r.value.rest| < |s|
    decreases |s|, 0
  {
    if s == [] then None
    else if s[0] == QUOTE then
      match ParseString(s[1..])
      case Some(p) => Some(Parsed(Str(p.value), p.rest))
      case None => None
    else if s[0] == OPEN_ARRAY then ParseArray(SkipSpace(s[1..]), toNumber)
    else if s[0] == OPEN_OBJECT then ParseObject(SkipSpace(s[1..]), toNumber)
    else ParseAtom(s, toNumber)
  }

  /** The rest of an array, after its opening bracket. */
  function ParseArray(s: Text, toNumber: Text -> Number): (r: Option<Parsed<Json>>)
    ensures r.Some? ==> |r.value.rest| < |s|
    decreases |s|, 2
  {
    if s != [] && s[0] == CLOSE_ARRAY then Some(Parsed(Arr([]), s[1..]))
    else
      match ParseItems(s, toNumber)
      case Some(p) => Some(Parsed(Arr(p.value), p.rest))
      case None => None
  }

  /** The rest of an object, after its opening brace. */
  function ParseObject(s: Text, toNumber: Text -> Number): (r: Option<Parsed<Json>>)
    ensures r.Some? ==> |r.value.rest| < |s|
    decreases |s|, 2
  {
    if s != [] && s[0] == CLOSE_OBJECT then Some(Parsed(Obj([]), s[1..]))
    else
      match ParseFields(s, toNumber)
      case Some(p) => Some(Parsed(Obj(p.value), p.rest))
      case None => None
  }

  /** One or more values separated by commas, up to the closing bracket. */
  function ParseItems(s: Text, toNumber: Text -> Number): (r: Option<Parsed<seq<Json>>>)
    ensures r.Some? ==> |r.value.rest| < |s|
    decreases |s|, 1
  {
    match ParseValue(s, toNumber)
    case None => None
    case Some(p) =>
      var t := SkipSpace(p.rest);
      if t == [] then None
      else if t[0] == CLOSE_ARRAY then Some(Parsed([p.value], t[1..]))
      else if t[0] != COMMA then None
      else
        match ParseItems(SkipSpace(t[1..]), toNumber)
        case None => None
        case Some(q) => Some(Parsed([p.value] + q.value, q.rest))
  }

  function ParseField(s: Text, toNumber: Text -> Number): (r: Option<Parsed<Field>>)
    ensures r.Some? ==> |r.value.rest| < |s|
    decreases |s|, 0
  {
    if s == [] || s[0] != QUOTE then None
    else
      match ParseString(s[1..])
      case None => None
      case Some(key) =>
        var t := SkipSpace(key.rest);
        if t == [] || t[0] != COLON then None
        else
          match ParseValue(SkipSpace(t[1..]), toNumber)
          case None => None
          case Some(p) => Some(Parsed(Field(key.value, p.value), p.rest))
  }

  function ParseFields(s: Text, toNumber: Text -> Number): (r: Option<Parsed<seq<Field>>>)
    ensures r.Some? ==> |r.value.rest| < |s|
    decreases |s|, 1
  {
    match ParseField(s, toNumber)
    case None => None
    case Some(p) =>
      var t := SkipSpace(p.rest);
      if t == [] then None
      else if t[0] == CLOSE_OBJECT then Some(Parsed([p.value], t[1..]))
      else if t[0] != COMMA then None
      else
        match ParseFields(SkipSpace(t[1..]), toNumber)
        case None => None
        case Some(q) => Some(Parsed(Prepend(p.value, q.value), q.rest))
  }

  /** `JSON.parse`. */
  function ParseJson(text: Text, toNumber: Text -> Number): Option<Json> {
    match ParseValue(SkipSpace(text), toNumber)
    case None => None
    case Some(p) => if SkipSpace(p.rest) == [] then Some(p.value) else None
  }

  // ---- Reading undoes printing: strings

  lemma ParseEscape(u: Unit, t: Text)
    ensures Escape(u) + t != []
    ensures (Escape(u) + t)[0] != QUOTE
    ensures ParseUnit(Escape(u) + t) == Some(Parsed(u, t))
  {
    var s := Escape(u) + t;
    assert s[|Escape(u)|..] == t;
    if |Escape(u)| == 6 {
      assert s[2..6] == [ZERO, ZERO, HexDigit(u / 16), HexDigit(u % 16)];
      assert HexValue(HexDigit(u / 16)) == Some(u / 16) && HexValue(HexDigit(u % 16)) == Some(u % 16);
      assert HexUnit(s[2..6]) == Some(u);
    }
  }

  lemma {:induction false} ParseEscaped(s: Text, rest: Text)
    ensures ParseString(EscapeAll(s) + ([QUOTE] + rest)) == Some(Parsed(s, rest))
  {
    var tail := [QUOTE] + rest;
    if s == [] {
      assert EscapeAll(s) + tail == tail;
      assert tail[1..] == rest;
    } else {
      var more := EscapeAll(s[1..]) + tail;
      assert EscapeAll(s) + tail == Escape(s[0]) + more;
      ParseEscape(s[0], more);
      ParseEscaped(s[1..], rest);
      assert [s[0]] + s[1..] == s;
    }
  }

  lemma ParseQuoted(s: Text, rest: Text)
    ensures Quoted(s) + rest != [] && (Quoted(s) + rest)[0] == QUOTE
    ensures ParseString((Quoted(s) + rest)[1..]) == Some(Parsed(s, rest))
  {
    assert (Quoted(s) + rest)[1..] == EscapeAll(s) + ([QUOTE] + rest);
    ParseEscaped(s, rest);
  }

  // ---- Reading undoes printing: numbers

  /** Text that cannot continue a number literal. */
  predicate EndsNumber(rest: Text) {
    rest == [] || !(IsDigit(rest[0]) || rest[0] in {POINT, 0x65, 0x45})
  }

  lemma {:induction false} DigitRunExact(digits: Text, rest: Text)
    requires forall i :: 0 <= i < |digits| ==> IsDigit(digits[i])
    requires rest == [] || !IsDigit(rest[0])
    ensures DigitRun(digits + rest) == |digits|
  {
    if digits == [] {
      assert digits + rest == rest;
    } else {
      assert (digits + rest)[1..] == digits[1..] + rest;
      DigitRunExact(digits[1..], rest);
    }
  }

  lemma ScanInteger(n: int, rest: Text)
    requires EndsNumber(rest)
    ensures ScanNumber(IntegerText(n) + rest) == Some(|IntegerText(n)|)
  {
    var s := IntegerText(n) + rest;
    var sign := if n < 0 then 1 else 0;
    var digits := Decimal(if n < 0 then -n else n);
    assert s[0] == MINUS <==> n < 0;
    assert s[sign..] == digits + rest;
    DigitRunExact(digits, rest);
    DecimalZero(if n < 0 then -n else n);
    assert s[sign] == digits[0];
    assert s[sign + |digits|..] == rest;
  }

  lemma DecimalZero(n: nat)
    ensures Decimal(n)[0] == ZERO ==> |Decimal(n)| == 1
  {
  }

  lemma ParsePrintedNumber(x: Number, rest: Text, toNumber: Text -> Number)
    requires SafeInteger(x) && EndsNumber(rest) && Exact(toNumber)
    ensures ParseValue(Print(Num(x)) + rest, toNumber) == Some(Parsed(Num(Unsigned(x)), rest))
  {
    var n := if x.Int? then x.n else 0;
    var literal := IntegerText(n);
    assert Print(Num(x)) == literal;
    ScanInteger(n, rest);
    var s := literal + rest;
    assert s[..|literal|] == literal && s[|literal|..] == rest;
    assert IsDigit(s[0]) || s[0] == MINUS;
    assert !StartsWith(s, NULL_TEXT) && !StartsWith(s, TRUE_TEXT) && !StartsWith(s, FALSE_TEXT) by {
      OtherLead(s, NULL_TEXT);
      OtherLead(s, TRUE_TEXT);
      OtherLead(s, FALSE_TEXT);
    }
  }

  lemma OtherLead(s: Text, prefix: Text)
    requires s != [] && prefix != [] && s[0] != prefix[0]
    ensures !StartsWith(s, prefix)
  {
    assert |prefix| <= |s| ==> s[..|prefix|][0] == s[0];
  }

  // ---- Reading undoes printing: values

  /** Printed values start with neither white space nor a closing bracket. */
  lemma PrintLead(v: Json)
    requires v != Foreign
    ensures Print(v) != []
    ensures !IsSpace(Print(v)[0]) && Print(v)[0] != CLOSE_ARRAY && Print(v)[0] != CLOSE_OBJECT
  {
    if v.Num? && v.number.Int? {
      var s := IntegerText(v.number.n);
      assert s[0] == MINUS || IsDigit(s[0]);
    }
  }

  predicate Printable(v: Json) {
    match v
    case Num(x) => SafeInteger(x)
    case Arr(items) => forall i :: 0 <= i < |items| ==> Printable(items[i])
    case Obj(fields) => DistinctKeys(fields) && forall i :: 0 <= i < |fields| ==> Printable(fields[i].value)
    case Foreign => false
    case _ => true
  }

  lemma ParsePrintedLiteral(s: Text, rest: Text, toNumber: Text -> Number)
    requires s == NULL_TEXT || s == TRUE_TEXT || s == FALSE_TEXT
    ensures ParseValue(s + rest, toNumber)
         == Some(Parsed(if s == NULL_TEXT then Null else Bool(s == TRUE_TEXT), rest))
  {
    var t := s + rest;
    assert t[..|s|] == s && t[|s|..] == rest;
    assert t[0] == s[0];
    if s != NULL_TEXT {
      OtherLead(t, NULL_TEXT);
      if s != TRUE_TEXT {
        OtherLead(t, TRUE_TEXT);
      }
    }
  }

  lemma {:induction false} ParsePrinted(v: Json, rest: Text, toNumber: Text -> Number)
    requires Printable(v) && EndsNumber(rest) && Exact(toNumber)
    ensures ParseValue(Print(v) + rest, toNumber) == Some(Parsed(Plain(v), rest))
    decreases v, 0
  {
    match v
    case Null => ParsePrintedLiteral(NULL_TEXT, rest, toNumber);
    case Bool(b) => ParsePrintedLiteral(if b then TRUE_TEXT else FALSE_TEXT, rest, toNumber);
    case Num(x) => ParsePrintedNumber(x, rest, toNumber);
    case Str(s) => ParsePrintedString(s, rest, toNumber);
    case Arr(items) =>
      ParsePrintedArray(items, rest, toNumber);
      ParseBrackets(items, rest, toNumber);
    case Obj(fields) =>
      ParsePrintedObject(fields, rest, toNumber);
      ParseBraces(fields, rest, toNumber);
  }

  lemma ParsePrintedString(s: Text, rest: Text, toNumber: Text -> Number)
    ensures ParseValue(Print(Str(s)) + rest, toNumber) == Some(Parsed(Str(s), rest))
  {
    ParseQuoted(s, rest);
  }

  lemma ParseBrackets(items: seq<Json>, rest: Text, toNumber: Text -> Number)
    ensures ParseValue(Print(Arr(items)) + rest, toNumber)
         == ParseArray(SkipSpace(PrintItems(items) + ([CLOSE_ARRAY] + rest)), toNumber)
  {
    assert (Print(Arr(items)) + rest)[1..] == PrintItems(items) + ([CLOSE_ARRAY] + rest);
  }

  lemma ParseBraces(fields: seq<Field>, rest: Text, toNumber: Text -> Number)
    ensures ParseValue(Print(Obj(fields)) + rest, toNumber)
         == ParseObject(SkipSpace(PrintFields(fields) + ([CLOSE_OBJECT] + rest)), toNumber)
  {
    assert (Print(Obj(fields)) + rest)[1..] == PrintFields(fields) + ([CLOSE_OBJECT] + rest);
  }

  lemma {:induction false} ParsePrintedArray(items: seq<Json>, rest: Text, toNumber: Text -> Number)
    requires (forall i :: 0 <= i < |items| ==> Printable(items[i])) && Exact(toNumber)
    ensures var s := PrintItems(items) + ([CLOSE_ARRAY] + rest);
            SkipSpace(s) == s && ParseArray(s, toNumber) == Some(Parsed(Arr(PlainItems(items)), rest))
    decreases items, 1
  {
    var tail := [CLOSE_ARRAY] + rest;
    var s := PrintItems(items) + tail;
    if items == [] {
      assert s == tail;
      assert tail[1..] == rest;
    } else {
      PrintItemsLead(items);
      assert s[0] == PrintItems(items)[0];
      ParsePrintedItems(items, rest, toNumber);
    }
  }

  lemma {:induction false} ParsePrintedObject(fields: seq<Field>, rest: Text, toNumber: Text -> Number)
    requires DistinctKeys(fields) && Exact(toNumber)
    requires forall i :: 0 <= i < |fields| ==> Printable(fields[i].value)
    ensures var s := PrintFields(fields) + ([CLOSE_OBJECT] + rest);
            SkipSpace(s) == s && ParseObject(s, toNumber) == Some(Parsed(Obj(PlainFields(fields)), rest))
    decreases fields, 1
  {
    var tail := [CLOSE_OBJECT] + rest;
    var s := PrintFields(fields) + tail;
    if fields == [] {
      assert s == tail;
      assert tail[1..] == rest;
    } else {
      PrintFieldsLead(fields);
      assert s[0] == QUOTE;
      ParsePrintedFields(fields, rest, toNumber);
    }
  }

  lemma PrintFieldsLead(fields: seq<Field>)
    requires fields != []
    ensures PrintFields(fields) != [] && PrintFields(fields)[0] == QUOTE
  {
    assert PrintField(fields[0])[0] == QUOTE;
  }

  lemma PrintItemsLead(items: seq<Json>)
    requires items != [] && Printable(items[0])
    ensures PrintItems(items) != []
    ensures !IsSpace(PrintItems(items)[0]) && PrintItems(items)[0] != CLOSE_ARRAY
  {
    PrintLead(items[0]);
  }

  lemma {:induction false} ParsePrintedItems(items: seq<Json>, rest: Text, toNumber: Text -> Number)
    requires items != [] && (forall i :: 0 <= i < |items| ==> Printable(items[i])) && Exact(toNumber)
    ensures ParseItems(PrintItems(items) + ([CLOSE_ARRAY] + rest), toNumber)
         == Some(Parsed(PlainItems(items), rest))
    decreases items, 0
  {
    hide Print, ParseValue, Exact, Printable;
    var s := PrintItems(items) + ([CLOSE_ARRAY] + rest);
    if |items| == 1 {
      var tail := [CLOSE_ARRAY] + rest;
      ParsePrinted(items[0], tail, toNumber);
      assert tail[1..] == rest;
      assert PlainItems(items) == [Plain(items[0])];
    } else {
      var next := PrintItems(items[1..]) + ([CLOSE_ARRAY] + rest);
      var tail := [COMMA] + next;
      assert s == Print(items[0]) + tail;
      ParsePrinted(items[0], tail, toNumber);
      assert tail[1..] == next;
      PrintItemsLead(items[1..]);
      assert next[0] == PrintItems(items[1..])[0];
      ParsePrintedItems(items[1..], rest, toNumber);
    }
  }

  lemma {:induction false} ParsePrintedField(f: Field, rest: Text, toNumber: Text -> Number)
    requires Printable(f.value) && EndsNumber(rest) && Exact(toNumber)
    ensures ParseField(PrintField(f) + rest, toNumber) == Some(Parsed(Field(f.key, Plain(f.value)), rest))
    decreases f, 1
  {
    hide Quoted, ParseString, ParseValue, Print, Exact;
    var s := PrintField(f) + rest;
    var value := Print(f.value) + rest;
    var t := [COLON] + value;
    assert s == Quoted(f.key) + t;
    ParseQuoted(f.key, t);
    assert t[1..] == value;
    PrintLead(f.value);
    assert value[0] == Print(f.value)[0];
    ParsePrinted(f.value, rest, toNumber);
  }

  lemma {:induction false} ParsePrintedFields(fields: seq<Field>, rest: Text, toNumber: Text -> Number)
    requires fields != [] && DistinctKeys(fields) && Exact(toNumber)
    requires forall i :: 0 <= i < |fields| ==> Printable(fields[i].value)
    ensures ParseFields(PrintFields(fields) + ([CLOSE_OBJECT] + rest), toNumber)
         == Some(Parsed(PlainFields(fields), rest))
    decreases fields, 0
  {
    if |fields| == 1 {
      var tail := [CLOSE_OBJECT] + rest;
      ParsePrintedField(fields[0], tail, toNumber);
      assert tail[1..] == rest;
      assert PlainFields(fields) == [Field(fields[0].key, Plain(fields[0].value))];
    } else {
      var f, next := fields[0], PrintFields(fields[1..]) + ([CLOSE_OBJECT] + rest);
      var tail := [COMMA] + next;
      assert PrintFields(fields) + ([CLOSE_OBJECT] + rest) == PrintField(f) + tail;
      ParsePrintedField(f, tail, toNumber);
      PrintFieldsLead(fields[1..]);
      assert next[0] == QUOTE;
      ParsePrintedFields(fields[1..], rest, toNumber);
      ParseFieldsStep(PrintField(f) + tail, Field(f.key, Plain(f.value)), next, toNumber);
      PrependPlain(fields);
    }
  }

  lemma PrependPlain(fields: seq<Field>)
    requires fields != [] && DistinctKeys(fields)
    ensures Prepend(Field(fields[0].key, Plain(fields[0].value)), PlainFields(fields[1..])) == PlainFields(fields)
  {
    LookupAbsent(PlainFields(fields[1..]), fields[0].key);
  }

  lemma ParseFieldsStep(s: Text, f: Field, next: Text, toNumber: Text -> Number)
    requires ParseField(s, toNumber) == Some(Parsed(f, [COMMA] + next))
    requires next != [] && !IsSpace(next[0])
    requires ParseFields(next, toNumber).Some?
    ensures ParseFields(s, toNumber)
         == Some(Parsed(Prepend(f, ParseFields(next, toNumber).value.value), ParseFields(next, toNumber).value.rest))
  {
    assert ([COMMA] + next)[1..] == next;
  }

  lemma {:induction false} LookupAbsent(fields: seq<Field>, key: Text)
    requires forall i :: 0 <= i < |fields| ==> fields[i].key != key
    ensures Lookup(fields, key) == None
  {
    if fields != [] {
      LookupAbsent(fields[1..], key);
    }
  }

  // ---- What the parser returns is a proper JavaScript value

  lemma ConsDistinct(f: Field, later: seq<Field>)
    requires DistinctKeys(later) && forall g :: g in later ==> g.key != f.key
    ensures DistinctKeys([f] + later)
  {
    var all := [f] + later;
    forall i, j | 0 <= i < j < |all|
      ensures all[i].key != all[j].key
    {
      assert all[j] == later[j - 1] && later[j - 1] in later;
    }
  }

  lemma {:induction false} WithoutKeepsDistinct(fields: seq<Field>, key: Text)
    requires DistinctKeys(fields)
    ensures DistinctKeys(Without(fields, key))
    ensures forall f :: f in Without(fields, key) ==> f in fields && f.key != key
  {
    if fields != [] {
      WithoutKeepsDistinct(fields[1..], key);
      if fields[0].key != key {
        ConsDistinct(fields[0], Without(fields[1..], key));
      }
    }
  }

  lemma {:induction false} LookupFound(fields: seq<Field>, key: Text)
    ensures match Lookup(fields, key)
            case Some(v) => Field(key, v) in fields
            case None => forall f :: f in fields ==> f.key != key
  {
    if fields != [] {
      assert fields == [fields[0]] + fields[1..];
      LookupFound(fields[1..], key);
    }
  }

  ghost predicate ProperFields(fields: seq<Field>) {
    DistinctKeys(fields) && forall f :: f in fields ==> Proper(f.value)
  }

  lemma PrependProper(f: Field, later: seq<Field>)
    requires Proper(f.value) && ProperFields(later)
    ensures ProperFields(Prepend(f, later))
  {
    LookupFound(later, f.key);
    WithoutKeepsDistinct(later, f.key);
    var w := Without(later, f.key);
    assert forall i :: 0 <= i < |w| ==> w[i] in w;
    assert forall i :: 0 <= i < |later| ==> later[i] in later;
  }

  lemma {:induction false} ParsedProper(s: Text, toNumber: Text -> Number)
    requires ParseValue(s, toNumber).Some?
    ensures Proper(ParseValue(s, toNumber).value.value)
    decreases |s|, 0
  {
    if s[0] == OPEN_ARRAY {
      ParsedArrayProper(SkipSpace(s[1..]), toNumber);
    } else if s[0] == OPEN_OBJECT {
      ParsedObjectProper(SkipSpace(s[1..]), toNumber);
    }
  }

  lemma {:induction false} ParsedArrayProper(s: Text, toNumber: Text -> Number)
    requires ParseArray(s, toNumber).Some?
    ensures Proper(ParseArray(s, toNumber).value.value)
    decreases |s|, 2
  {
    if !(s != [] && s[0] == CLOSE_ARRAY) {
      ParsedItemsProper(s, toNumber);
      var items := ParseItems(s, toNumber).value.value;
      assert forall i :: 0 <= i < |items| ==> items[i] in items;
    }
  }

  lemma {:induction false} ParsedObjectProper(s: Text, toNumber: Text -> Number)
    requires ParseObject(s, toNumber).Some?
    ensures Proper(ParseObject(s, toNumber).value.value)
    decreases |s|, 2
  {
    if !(s != [] && s[0] == CLOSE_OBJECT) {
      ParsedFieldsProper(s, toNumber);
      var fields := ParseFields(s, toNumber).value.value;
      assert forall i :: 0 <= i < |fields| ==> fields[i] in fields;
    }
  }

  lemma {:induction false} ParsedItemsProper(s: Text, toNumber: Text -> Number)
    requires ParseItems(s, toNumber).Some?
    ensures forall v :: v in ParseItems(s, toNumber).value.value ==> Proper(v)
    decreases |s|, 1
  {
    ParsedProper(s, toNumber);
    var t := SkipSpace(ParseValue(s, toNumber).value.rest);
    if t[0] == COMMA {
      ParsedItemsProper(SkipSpace(t[1..]), toNumber);
    }
  }

  lemma {:induction false} ParsedFieldsProper(s: Text, toNumber: Text -> Number)
    requires ParseFields(s, toNumber).Some?
    ensures ProperFields(ParseFields(s, toNumber).value.value)
    decreases |s|, 1
  {
    var key := ParseString(s[1..]).value;
    ParsedProper(SkipSpace(SkipSpace(key.rest)[1..]), toNumber);
    var p := ParseField(s, toNumber).value;
    var t := SkipSpace(p.rest);
    if t[0] == COMMA {
      ParsedFieldsProper(SkipSpace(t[1..]), toNumber);
      PrependProper(p.value, ParseFields(SkipSpace(t[1..]), toNumber).value.value);
    }
  }
}
