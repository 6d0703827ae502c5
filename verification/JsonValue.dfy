/**
 The restricted JSON values of the contract codec: which values it admits,
 the key order it imposes, and what it means for two values to agree.
 */
module JsonValue {
  import opened Utf16

  const MAX_JSON_DEPTH: nat := 12
  const MAX_JSON_ITEMS: nat := 64
  const MAX_SAFE_INTEGER: int := 9_007_199_254_740_991

  /** A JavaScript number: an integer, negative zero, or anything else. */
  datatype Number = Int(n: int) | NegativeZero | NotInteger

  /** `Foreign` stands for every value that JSON cannot hold (functions, dates, undefined, ...). */
  datatype Json =
    | Null
    | Bool(b: bool)
    | Num(number: Number)
    | Str(text: Text)
    | Arr(items: seq<Json>)
    | Obj(fields: seq<Field>)
    | Foreign

  /** One own property; an object lists its properties in insertion order. */
  datatype Field = Field(key: Text, value: Json)

  // ---- What the codec admits

  predicate IsLower(u: Unit) {
    0x61 <= u <= 0x7A
  }

  predicate IsDigit(u: Unit) {
    0x30 <= u <= 0x39
  }

  /** A lower-case letter followed by lower-case letters, digits and underscores. */
  predicate CanonicalKey(key: Text) {
    && key != []
    && IsLower(key[0])
    && forall i :: 0 < i < |key| ==> IsLower(key[i]) || IsDigit(key[i]) || key[i] == 0x5F
  }

  predicate SafeInteger(x: Number) {
    match x
    case Int(n) => -MAX_SAFE_INTEGER <= n <= MAX_SAFE_INTEGER
    case NegativeZero => true
    case NotInteger => false
  }

  /** `nfc` decides whether a text is in Unicode normalization form C. */
  predicate NormalText(s: Text, nfc: Text -> bool) {
    WellFormed(s) && nfc(s)
  }

  predicate Restricted(v: Json, depth: nat, nfc: Text -> bool)
    decreases v
  {
    && depth <= MAX_JSON_DEPTH
    && match v
       case Null => true
       case Bool(_) => true
       case Num(x) => SafeInteger(x)
       case Str(s) => NormalText(s, nfc)
       case Arr(items) =>
         |items| <= MAX_JSON_ITEMS && forall i :: 0 <= i < |items| ==> Restricted(items[i], depth + 1, nfc)
       case Obj(fields) =>
         && |fields| <= MAX_JSON_ITEMS
         && (forall i :: 0 <= i < |fields| ==> CanonicalKey(fields[i].key))
         && (forall i :: 0 <= i < |fields| ==> Restricted(fields[i].value, depth + 1, nfc))
       case Foreign => false
  }

  predicate DistinctKeys(fields: seq<Field>) {
    forall i, j :: 0 <= i < j < |fields| ==> fields[i].key != fields[j].key
  }

  /** What JavaScript guarantees of any object: no property occurs twice. */
  predicate Proper(v: Json) {
    match v
    case Arr(items) => forall i :: 0 <= i < |items| ==> Proper(items[i])
    case Obj(fields) => DistinctKeys(fields) && forall i :: 0 <= i < |fields| ==> Proper(fields[i].value)
    case _ => true
  }

  // ---- When two values agree

  function Keys(fields: seq<Field>): set<Text> {
    set f | f in fields :: f.key
  }

  /** JavaScript's `===` on numbers, which does not tell the two zeros apart. */
  ghost predicate SameNumber(x: Number, y: Number) {
    x == y || (x in {Int(0), NegativeZero} && y in {Int(0), NegativeZero})
  }

  /** Equality up to the order of object keys (and the sign of zero). */
  ghost predicate Same(v: Json, w: Json)
    decreases v
  {
    match (v, w)
    case (Num(x), Num(y)) => SameNumber(x, y)
    case (Arr(a), Arr(b)) =>
      |a| == |b| && forall i :: 0 <= i < |a| ==> Same(a[i], b[i])
    case (Obj(a), Obj(b)) =>
      && Keys(a) == Keys(b)
      && forall i, j :: 0 <= i < |a| && 0 <= j < |b| && a[i].key == b[j].key ==> Same(a[i].value, b[j].value)
    case _ => v == w
  }

  // ---- Key order

  /** The order of `Array.prototype.sort` on strings: by UTF-16 code unit. */
  predicate KeyBefore(a: Text, b: Text) {
    if b == [] then false
    else if a == [] then true
    else a[0] < b[0] || (a[0] == b[0] && KeyBefore(a[1..], b[1..]))
  }

  lemma {:induction false} KeyOrderTotal(a: Text, b: Text)
    ensures a == b || KeyBefore(a, b) || KeyBefore(b, a)
  {
    if a != [] && b != [] && a[0] == b[0] {
      KeyOrderTotal(a[1..], b[1..]);
      assert a == [a[0]] + a[1..] && b == [b[0]] + b[1..];
    }
  }

  lemma {:induction false} KeyOrderTransitive(a: Text, b: Text, c: Text)
    requires KeyBefore(a, b) && KeyBefore(b, c)
    ensures KeyBefore(a, c)
  {
    if a != [] && a[0] == b[0] == c[0] {
      KeyOrderTransitive(a[1..], b[1..], c[1..]);
    }
  }

  lemma {:induction false} KeyOrderIrreflexive(a: Text)
    ensures !KeyBefore(a, a)
  {
    if a != [] {
      KeyOrderIrreflexive(a[1..]);
    }
  }

  predicate StrictlySorted(fields: seq<Field>) {
    forall i, j :: 0 <= i < j < |fields| ==> KeyBefore(fields[i].key, fields[j].key)
  }

  function InsertField(f: Field, fields: seq<Field>): seq<Field> {
    if fields == [] || KeyBefore(f.key, fields[0].key) then [f] + fields
    else [fields[0]] + InsertField(f, fields[1..])
  }

  function SortFields(fields: seq<Field>): seq<Field> {
    if fields == [] then [] else InsertField(fields[0], SortFields(fields[1..]))
  }

  /** `ordered`: every object rebuilt with its keys sorted. */
  function Ordered(v: Json): Json {
    match v
    case Arr(items) => Arr(OrderedItems(items))
    case Obj(fields) => Obj(SortFields(OrderedFields(fields)))
    case _ => v
  }

  function OrderedItems(items: seq<Json>): (r: seq<Json>)
    ensures |r| == |items| && forall i :: 0 <= i < |r| ==> r[i] == Ordered(items[i])
  {
    if items == [] then [] else [Ordered(items[0])] + OrderedItems(items[1..])
  }

  function OrderedFields(fields: seq<Field>): (r: seq<Field>)
    ensures |r| == |fields|
    ensures forall i :: 0 <= i < |r| ==> r[i] == Field(fields[i].key, Ordered(fields[i].value))
  {
    if fields == [] then []
    else [Field(fields[0].key, Ordered(fields[0].value))] + OrderedFields(fields[1..])
  }

  lemma {:induction false} InsertFieldSorts(f: Field, fields: seq<Field>)
    requires StrictlySorted(fields)
    requires forall g :: g in fields ==> g.key != f.key
    ensures StrictlySorted(InsertField(f, fields))
    ensures forall g :: g in InsertField(f, fields) <==> g == f || g in fields
    ensures |InsertField(f, fields)| == |fields| + 1
  {
    if fields == [] {
    } else if KeyBefore(f.key, fields[0].key) {
      var r := [f] + fields;
      forall j | 1 <= j < |r| ensures KeyBefore(f.key, r[j].key) {
        if j > 1 {
          KeyOrderTransitive(f.key, fields[0].key, fields[j - 1].key);
        }
      }
    } else {
      assert fields == [fields[0]] + fields[1..];
      InsertFieldSorts(f, fields[1..]);
      assert fields[0] in fields;
      KeyOrderTotal(f.key, fields[0].key);
      var tail := InsertField(f, fields[1..]);
      forall j | 0 <= j < |tail| ensures KeyBefore(fields[0].key, tail[j].key) {
        assert tail[j] in tail;
      }
    }
  }

  /** Sorting yields the same properties, in strictly ascending key order. */
  lemma {:induction false} SortFieldsSorts(fields: seq<Field>)
    requires DistinctKeys(fields)
    ensures StrictlySorted(SortFields(fields))
    ensures forall g :: g in SortFields(fields) <==> g in fields
    ensures |SortFields(fields)| == |fields|
  {
    if fields != [] {
      assert fields == [fields[0]] + fields[1..];
      SortFieldsSorts(fields[1..]);
      InsertFieldSorts(fields[0], SortFields(fields[1..]));
    }
  }

  lemma StrictlySortedDistinct(fields: seq<Field>)
    requires StrictlySorted(fields)
    ensures DistinctKeys(fields)
  {
    forall i, j | 0 <= i < j < |fields| ensures fields[i].key != fields[j].key {
      KeyOrderIrreflexive(fields[i].key);
    }
  }

  lemma SomeMember(a: seq<Field>)
    requires a != []
    ensures exists f :: f in a
  {
    assert a[0] in a;
  }

  /** A strictly sorted list is determined by the properties it holds. */
  lemma {:induction false} SortedFieldsUnique(a: seq<Field>, b: seq<Field>)
    requires StrictlySorted(a) && StrictlySorted(b)
    requires forall f :: f in a <==> f in b
    ensures a == b
  {
    if a == [] {
      if b != [] {
        SomeMember(b);
      }
    } else {
      assert a[0] in b && b != [];
      assert b[0] in a;
      FirstIsLeast(a, b[0]);
      FirstIsLeast(b, a[0]);
      if a[0] != b[0] {
        KeyOrderTransitive(a[0].key, b[0].key, a[0].key);
        KeyOrderIrreflexive(a[0].key);
      }
      StrictlySortedDistinct(a);
      StrictlySortedDistinct(b);
      assert a == [a[0]] + a[1..] && b == [b[0]] + b[1..];
      forall f ensures f in a[1..] <==> f in b[1..] {
        InTail(a, f);
        InTail(b, f);
      }
      SortedFieldsUnique(a[1..], b[1..]);
    }
  }

  lemma FirstIsLeast(a: seq<Field>, f: Field)
    requires StrictlySorted(a) && f in a
    ensures f == a[0] || KeyBefore(a[0].key, f.key)
  {
    var i :| 0 <= i < |a| && a[i] == f;
  }

  lemma InTail(a: seq<Field>, f: Field)
    requires a != [] && DistinctKeys(a)
    ensures f in a[1..] <==> f in a && f != a[0]
  {
    if f in a && f != a[0] {
      var i :| 0 <= i < |a| && a[i] == f;
      assert a[1..][i - 1] == f;
    }
  }

  // ---- The value a canonical text stands for

  /** What reading a number back yields: its sign is lost when it is zero. */
  function Unsigned(x: Number): Number {
    if x == NegativeZero then Int(0) else x
  }

  function Plain(v: Json): Json {
    match v
    case Num(x) => Num(Unsigned(x))
    case Arr(items) => Arr(PlainItems(items))
    case Obj(fields) => Obj(PlainFields(fields))
    case _ => v
  }

  function PlainItems(items: seq<Json>): (r: seq<Json>)
    ensures |r| == |items| && forall i :: 0 <= i < |r| ==> r[i] == Plain(items[i])
  {
    if items == [] then [] else [Plain(items[0])] + PlainItems(items[1..])
  }

  function PlainFields(fields: seq<Field>): (r: seq<Field>)
    ensures |r| == |fields|
    ensures forall i :: 0 <= i < |r| ==> r[i] == Field(fields[i].key, Plain(fields[i].value))
  {
    if fields == [] then []
    else [Field(fields[0].key, Plain(fields[0].value))] + PlainFields(fields[1..])
  }

  /** Sorted keys and unsigned zeros: one representative of each class of `Same`. */
  function Normal(v: Json): Json {
    Plain(Ordered(v))
  }

  function NormalList(fields: seq<Field>): (r: seq<Field>) {
    PlainFields(SortFields(OrderedFields(fields)))
  }

  function NormalField(f: Field): Field {
    Field(f.key, Normal(f.value))
  }

  /** A normalised object is the strictly sorted list of its normalised properties. */
  lemma NormalFields(fields: seq<Field>)
    requires DistinctKeys(fields)
    ensures Normal(Obj(fields)) == Obj(NormalList(fields))
    ensures StrictlySorted(NormalList(fields)) && |NormalList(fields)| == |fields|
    ensures forall i :: 0 <= i < |fields| ==> NormalField(fields[i]) in NormalList(fields)
  {
    var o := OrderedFields(fields);
    SortFieldsSorts(o);
    var s := SortFields(o);
    forall i | 0 <= i < |fields| ensures NormalField(fields[i]) in NormalList(fields) {
      assert o[i] in s;
      var k :| 0 <= k < |s| && s[k] == o[i];
      assert NormalList(fields)[k] == NormalField(fields[i]);
    }
  }

  lemma NormalFieldOrigin(fields: seq<Field>, g: Field) returns (i: nat)
    requires DistinctKeys(fields) && g in NormalList(fields)
    ensures i < |fields| && g == NormalField(fields[i])
  {
    var o := OrderedFields(fields);
    SortFieldsSorts(o);
    var s := SortFields(o);
    var k :| 0 <= k < |s| && NormalList(fields)[k] == g;
    assert s[k] in o;
    i :| 0 <= i < |o| && o[i] == s[k];
  }

  /** Two values agree exactly when they have the same normal form. */
  lemma {:induction false} SameIffNormal(v: Json, w: Json)
    requires Proper(v) && Proper(w)
    ensures Same(v, w) <==> Normal(v) == Normal(w)
    decreases v
  {
    match (v, w)
    case (Arr(a), Arr(b)) =>
      if |a| == |b| {
        forall i | 0 <= i < |a| ensures Same(a[i], b[i]) <==> Normal(a[i]) == Normal(b[i]) {
          SameIffNormal(a[i], b[i]);
        }
        ArraysSame(a, b);
      }
    case (Obj(a), Obj(b)) =>
      forall i, j | 0 <= i < |a| && 0 <= j < |b|
        ensures Same(a[i].value, b[j].value) <==> Normal(a[i].value) == Normal(b[j].value)
      {
        SameIffNormal(a[i].value, b[j].value);
      }
      ObjectsSame(a, b);
    case _ =>
  }

  lemma ArraysSame(a: seq<Json>, b: seq<Json>)
    requires |a| == |b| && forall i :: 0 <= i < |a| ==> (Same(a[i], b[i]) <==> Normal(a[i]) == Normal(b[i]))
    ensures Same(Arr(a), Arr(b)) <==> Normal(Arr(a)) == Normal(Arr(b))
  {
    var na, nb := PlainItems(OrderedItems(a)), PlainItems(OrderedItems(b));
    assert forall i :: 0 <= i < |a| ==> na[i] == Normal(a[i]) && nb[i] == Normal(b[i]);
  }

  lemma ObjectsSame(a: seq<Field>, b: seq<Field>)
    requires DistinctKeys(a) && DistinctKeys(b)
    requires forall i, j :: 0 <= i < |a| && 0 <= j < |b| ==>
               (Same(a[i].value, b[j].value) <==> Normal(a[i].value) == Normal(b[j].value))
    ensures Same(Obj(a), Obj(b)) <==> Normal(Obj(a)) == Normal(Obj(b))
  {
    hide Normal;
    if Same(Obj(a), Obj(b)) {
      SameObjectsNormal(a, b);
    }
    if Normal(Obj(a)) == Normal(Obj(b)) {
      NormalObjectsSame(a, b);
    }
  }

  lemma SameObjectsNormal(a: seq<Field>, b: seq<Field>)
    requires DistinctKeys(a) && DistinctKeys(b) && Keys(a) == Keys(b)
    requires forall i, j :: 0 <= i < |a| && 0 <= j < |b| && a[i].key == b[j].key ==>
               Normal(a[i].value) == Normal(b[j].value)
    ensures Normal(Obj(a)) == Normal(Obj(b))
  {
    NormalFields(a);
    NormalFields(b);
    var ra, rb := NormalList(a), NormalList(b);
    forall g ensures g in ra <==> g in rb {
      if g in ra {
        NormalFieldIn(a, b, g);
      }
      if g in rb {
        NormalFieldIn(b, a, g);
      }
    }
    SortedFieldsUnique(ra, rb);
  }

  lemma NormalFieldIn(a: seq<Field>, b: seq<Field>, g: Field)
    requires DistinctKeys(a) && DistinctKeys(b) && Keys(a) <= Keys(b)
    requires forall i, j :: 0 <= i < |a| && 0 <= j < |b| && a[i].key == b[j].key ==>
               Normal(a[i].value) == Normal(b[j].value)
    requires g in NormalList(a)
    ensures g in NormalList(b)
  {
    NormalFields(b);
    var i := NormalFieldOrigin(a, g);
    assert a[i] in a;
    assert a[i].key in Keys(a);
    var f :| f in b && f.key == a[i].key;
    var j :| 0 <= j < |b| && b[j] == f;
    assert NormalField(b[j]) == g;
  }

  lemma NormalObjectsSame(a: seq<Field>, b: seq<Field>)
    requires DistinctKeys(a) && DistinctKeys(b)
    requires Normal(Obj(a)) == Normal(Obj(b))
    ensures Keys(a) == Keys(b)
    ensures forall i, j :: 0 <= i < |a| && 0 <= j < |b| && a[i].key == b[j].key ==>
              Normal(a[i].value) == Normal(b[j].value)
  {
    NormalFields(a);
    NormalFields(b);
    var r := NormalList(a);
    KeysWithin(a, b);
    KeysWithin(b, a);
    forall i, j | 0 <= i < |a| && 0 <= j < |b| && a[i].key == b[j].key
      ensures Normal(a[i].value) == Normal(b[j].value)
    {
      StrictlySortedDistinct(r);
      var f, g := NormalField(a[i]), NormalField(b[j]);
      assert f in r && g in r;
      var x :| 0 <= x < |r| && r[x] == f;
      var y :| 0 <= y < |r| && r[y] == g;
    }
  }

  lemma KeysWithin(a: seq<Field>, b: seq<Field>)
    requires DistinctKeys(a) && DistinctKeys(b)
    requires Normal(Obj(a)) == Normal(Obj(b))
    ensures Keys(a) <= Keys(b)
  {
    NormalFields(a);
    NormalFields(b);
    forall k | k in Keys(a) ensures k in Keys(b) {
      var f :| f in a && f.key == k;
      var i :| 0 <= i < |a| && a[i] == f;
      assert NormalField(a[i]) in NormalList(b);
      var j := NormalFieldOrigin(b, NormalField(a[i]));
      assert b[j] in b;
    }
  }

  /** The normal form of an admitted value is admitted, at the same depth. */
  lemma {:induction false} NormalRestricted(v: Json, depth: nat, nfc: Text -> bool)
    requires Restricted(v, depth, nfc) && Proper(v)
    ensures Restricted(Normal(v), depth, nfc) && Proper(Normal(v))
    decreases v
  {
    match v
    case Arr(items) =>
      forall i | 0 <= i < |items| ensures Restricted(Normal(items[i]), depth + 1, nfc) && Proper(Normal(items[i])) {
        NormalRestricted(items[i], depth + 1, nfc);
      }
    case Obj(fields) =>
      forall i | 0 <= i < |fields|
        ensures Restricted(Normal(fields[i].value), depth + 1, nfc) && Proper(Normal(fields[i].value))
      {
        NormalRestricted(fields[i].value, depth + 1, nfc);
      }
      NormalFields(fields);
      var r := NormalList(fields);
      StrictlySortedDistinct(r);
      forall k | 0 <= k < |r|
        ensures CanonicalKey(r[k].key) && Restricted(r[k].value, depth + 1, nfc) && Proper(r[k].value)
      {
        assert r[k] in r;
        var i := NormalFieldOrigin(fields, r[k]);
      }
    case _ =>
  }
}
