/**
 * The values tree Helm stores and the operator builds, its canonical JSON text as
 * encoding/json writes it, and the comparison of two trees by that text.
 */
module Json {
  import opened Text

  /** 2^53: up to here an int and the float64 it is decoded to print alike. */
  const MAX_SAFE := 9007199254740992

  type SafeInt = n: int | -MAX_SAFE <= n <= MAX_SAFE

  /** A Go value of type any that json.Marshal accepts; numbers are integral. */
  datatype Value =
    | Null
    | Bool(b: bool)
    | Int(n: SafeInt)
    | Float(f: SafeInt)
    | Str(s: string)
    | List(items: seq<Value>)
    | Map(fields: map<string, Value>)

  /** A Go variable of type map[string]any, which may be nil. */
  datatype ValueMap = NilMap | MapOf(entries: map<string, Value>)

  function Entries(m: ValueMap): map<string, Value> {
    if m.NilMap? then map[] else m.entries
  }

  /** The JSON meaning of a value: whether a number was held as int or float64 is forgotten. */
  function Meaning(v: Value): Value
    decreases v
  {
    match v
    case Float(f) => Int(f)
    case List(items) => List(seq(|items|, i requires 0 <= i < |items| => Meaning(items[i])))
    case Map(fields) => Map(map k | k in fields :: Meaning(fields[k]))
    case _ => v
  }

  // ---- string escaping ----

  function HexChar(d: nat): (c: char)
    requires d < 16
  {
    if d < 10 then ('0' as int + d) as char else ('a' as int + d - 10) as char
  }

  function Hex4(n: nat): (s: string)
    requires n < 0x10000
    ensures |s| == 4
  {
    [HexChar(n / 16 / 16 / 16), HexChar(n / 16 / 16 % 16), HexChar(n / 16 % 16), HexChar(n % 16)]
  }

  lemma Hex4Injective(a: nat, b: nat)
    requires a < 0x10000 && b < 0x10000 && Hex4(a) == Hex4(b)
    ensures a == b
  {
    var x, y := Hex4(a), Hex4(b);
    assert x[0] == y[0] && x[1] == y[1] && x[2] == y[2] && x[3] == y[3];
    SameDigits(a / 16 / 16, b / 16 / 16);
    SameDigits(a / 16, b / 16);
    SameDigits(a, b);
  }

  lemma SameDigits(a: nat, b: nat)
    requires a / 16 == b / 16 && HexChar(a % 16) == HexChar(b % 16)
    ensures a == b
  {}

  /** The letter after the backslash for the characters that have a short escape. */
  function ShortEscape(c: char): Option<char> {
    if c == '"' || c == '\\' then Some(c)
    else if c == '\U{8}' then Some('b')
    else if c == '\U{c}' then Some('f')
    else if c == '\n' then Some('n')
    else if c == '\r' then Some('r')
    else if c == '\t' then Some('t')
    else None
  }

  predicate LongEscape(c: char) {
    (c as int < 0x20 || c == '<' || c == '>' || c == '&' || c == '\U{2028}' || c == '\U{2029}')
    && ShortEscape(c).None?
  }

  function EscapeChar(c: char): (s: string)
    ensures |s| > 0 && s[0] != '"'
  {
    if ShortEscape(c).Some? then ['\\', ShortEscape(c).value]
    else if LongEscape(c) then ['\\', 'u'] + Hex4(c as int)
    else [c]
  }

  function Escape(s: string): string {
    if s == [] then [] else EscapeChar(s[0]) + Escape(s[1..])
  }

  const QUOTE: string := ['"']

  function Quote(s: string): string { QUOTE + Escape(s) + QUOTE }

  /** The escape codes form a prefix code. */
  lemma EscapeCharReadsBack(c: char, d: char, s: string, t: string)
    requires EscapeChar(c) + s == EscapeChar(d) + t
    ensures c == d && s == t
  {
    var x, y := EscapeChar(c) + s, EscapeChar(d) + t;
    assert x[0] == EscapeChar(c)[0] && y[0] == EscapeChar(d)[0];
    if |EscapeChar(c)| > 1 {
      assert |EscapeChar(d)| > 1;
      assert x[1] == EscapeChar(c)[1] && y[1] == EscapeChar(d)[1];
      if LongEscape(c) {
        assert LongEscape(d);
        assert Hex4(c as int) == x[2..6] == y[2..6] == Hex4(d as int);
        Hex4Injective(c as int, d as int);
      }
    }
    SamePrefix(EscapeChar(c), s, t);
  }

  /** An escaped string ends at the first unescaped quote. */
  lemma {:induction false} EscapeReadsBack(a: string, b: string, s: string, t: string)
    requires Escape(a) + (QUOTE + s) == Escape(b) + (QUOTE + t)
    ensures a == b && s == t
  {
    if a != [] && b != [] {
      Regroup(EscapeChar(a[0]), Escape(a[1..]), QUOTE + s);
      Regroup(EscapeChar(b[0]), Escape(b[1..]), QUOTE + t);
      EscapeCharReadsBack(a[0], b[0], Escape(a[1..]) + (QUOTE + s), Escape(b[1..]) + (QUOTE + t));
      EscapeReadsBack(a[1..], b[1..], s, t);
      assert a == [a[0]] + a[1..] && b == [b[0]] + b[1..];
    } else {
      EscapeStart(a, s);
      EscapeStart(b, t);
      assert a == b == [];
      SamePrefix(QUOTE, s, t);
    }
  }

  lemma EscapeStart(a: string, s: string)
    ensures (Escape(a) + (QUOTE + s))[0] == '"' <==> a == []
    ensures a == [] ==> Escape(a) + (QUOTE + s) == QUOTE + s
  {
    if a != [] {
      assert (Escape(a) + (QUOTE + s))[0] == Escape(a)[0] == EscapeChar(a[0])[0];
    }
  }

  lemma QuoteReadsBack(a: string, b: string, s: string, t: string)
    requires Quote(a) + s == Quote(b) + t
    ensures a == b && s == t
  {
    Regroup(QUOTE + Escape(a), QUOTE, s);
    Regroup(QUOTE + Escape(b), QUOTE, t);
    PeelPrefix(QUOTE, Escape(a), QUOTE + s, Escape(b), QUOTE + t);
    EscapeReadsBack(a, b, s, t);
  }

  // ---- key order ----

  /** Go's string order: by code point, which for valid UTF-8 is also the byte order. */
  predicate LexLeq(a: string, b: string) {
    a == [] || (b != [] && (a[0] < b[0] || (a[0] == b[0] && LexLeq(a[1..], b[1..]))))
  }

  lemma LexTotal(a: string, b: string)
    ensures LexLeq(a, b) || LexLeq(b, a)
  {}

  lemma {:induction false} LexAntisymmetric(a: string, b: string)
    requires LexLeq(a, b) && LexLeq(b, a)
    ensures a == b
  {
    if a != [] && b != [] {
      LexAntisymmetric(a[1..], b[1..]);
      assert a == [a[0]] + a[1..] && b == [b[0]] + b[1..];
    }
  }

  lemma LexTransitive(a: string, b: string, c: string)
    requires LexLeq(a, b) && LexLeq(b, c)
    ensures LexLeq(a, c)
  {}

  predicate LeastKey(k: string, ks: set<string>) {
    k in ks && forall j | j in ks :: LexLeq(k, j)
  }

  lemma {:induction false} LeastKeyExists(ks: set<string>)
    requires ks != {}
    ensures exists k :: LeastKey(k, ks)
    decreases ks
  {
    var x :| x in ks;
    LexTotal(x, x);
    if ks == {x} {
      assert LeastKey(x, ks);
    } else {
      LeastKeyExists(ks - {x});
      var y :| LeastKey(y, ks - {x});
      LexTotal(x, y);
      if LexLeq(x, y) {
        forall j | j in ks ensures LexLeq(x, j) {
          if j != x { LexTransitive(x, y, j); }
        }
        assert LeastKey(x, ks);
      } else {
        assert LeastKey(y, ks);
      }
    }
  }

  function FirstKey(ks: set<string>): (k: string)
    requires ks != {}
    ensures LeastKey(k, ks)
  {
    LeastKeyExists(ks);
    assert forall j, k | LeastKey(j, ks) && LeastKey(k, ks) :: j == k by {
      forall j, k | LeastKey(j, ks) && LeastKey(k, ks) ensures j == k { LexAntisymmetric(j, k); }
    }
    var k :| k in ks && LeastKey(k, ks);
    k
  }

  function SortedKeys(ks: set<string>): (r: seq<string>)
    ensures forall k :: k in r <==> k in ks
    ensures |r| == |ks|
    ensures forall i, j | 0 <= i < j < |r| :: LexLeq(r[i], r[j])
  {
    if ks == {} then [] else
      var k := FirstKey(ks);
      assert LeastKey(k, ks);
      [k] + SortedKeys(ks - {k})
  }

  // ---- the printer ----

  /** json.Marshal: no spaces, map keys sorted. */
  function Print(v: Value): string
    decreases v, 2
  {
    match v
    case Null => "null"
    case Bool(b) => if b then "true" else "false"
    case Int(n) => Decimal(n)
    case Float(f) => Decimal(f)
    case Str(s) => Quote(s)
    case List(items) => "[" + PrintItems(v, 0)
    case Map(fields) => "{" + PrintFields(v, SortedKeys(fields.Keys), 0)
  }

  function Separator(i: nat): string { if i > 0 then "," else "" }

  /** The items from the i-th on, up to and including the closing bracket. */
  function PrintItems(v: Value, i: nat): string
    requires v.List? && i <= |v.items|
    decreases v, 1, |v.items| - i
  {
    if i == |v.items| then "]"
    else Separator(i) + (Print(v.items[i]) + PrintItems(v, i + 1))
  }

  function PrintFields(v: Value, keys: seq<string>, i: nat): string
    requires v.Map? && i <= |keys| && forall k | k in keys :: k in v.fields
    decreases v, 1, |keys| - i
  {
    if i == |keys| then "}"
    else Separator(i) + (Quote(keys[i]) + (":" + (Print(v.fields[keys[i]]) + PrintFields(v, keys, i + 1))))
  }

  // ---- the text determines the meaning ----

  ghost predicate Delimited(s: string) {
    s == [] || s[0] in [',', ']', '}']
  }

  /** What the first character of a printed value says about its kind. */
  function Kind(v: Value): nat {
    match v
    case Null => 0
    case Bool(b) => if b then 1 else 2
    case Int(_) => 3
    case Float(_) => 3
    case Str(_) => 4
    case List(_) => 5
    case Map(_) => 6
  }

  function KindOfChar(c: char): nat {
    if c == 'n' then 0 else if c == 't' then 1 else if c == 'f' then 2
    else if c == '"' then 4 else if c == '[' then 5 else if c == '{' then 6
    else if IsDigit(c) || c == '-' then 3 else 7
  }

  lemma FirstCharTellsKind(v: Value)
    ensures |Print(v)| > 0 && KindOfChar(Print(v)[0]) == Kind(v)
  {}

  /** Unambiguous nesting: a printed value can be split off any delimited text in one way only. */
  lemma {:induction false} PrintReadsBack(a: Value, b: Value, s: string, t: string)
    requires Delimited(s) && Delimited(t)
    requires Print(a) + s == Print(b) + t
    ensures Meaning(a) == Meaning(b) && s == t
    decreases a, 2
  {
    FirstCharTellsKind(a);
    FirstCharTellsKind(b);
    SameFirst(Print(a), s, Print(b), t);
    match a
    case List(_) =>
      PeelPrefix("[", PrintItems(a, 0), s, PrintItems(b, 0), t);
      ItemsReadBack(a, b, 0, s, t);
      SameItems(a, b);
    case Map(_) =>
      var ka, kb := SortedKeys(a.fields.Keys), SortedKeys(b.fields.Keys);
      PeelPrefix("{", PrintFields(a, ka, 0), s, PrintFields(b, kb, 0), t);
      FieldsReadBack(a, ka, b, kb, 0, s, t);
      SameFields(a, b, ka, kb);
    case _ =>
      ScalarReadsBack(a, b, s, t);
  }

  lemma ScalarReadsBack(a: Value, b: Value, s: string, t: string)
    requires !a.List? && !a.Map? && Kind(a) == Kind(b)
    requires Delimited(s) && Delimited(t)
    requires Print(a) + s == Print(b) + t
    ensures Meaning(a) == Meaning(b) && s == t
  {
    match a
    case Str(x) => QuoteReadsBack(x, b.s, s, t);
    case Int(n) => DecimalReadsBack(n, if b.Int? then b.n else b.f, s, t);
    case Float(f) => DecimalReadsBack(f, if b.Int? then b.n else b.f, s, t);
    case _ => SamePrefix(Print(a), s, t);
  }

  lemma SameItems(a: Value, b: Value)
    requires a.List? && b.List? && |a.items| == |b.items|
    requires forall j | 0 <= j < |a.items| :: Meaning(a.items[j]) == Meaning(b.items[j])
    ensures Meaning(a) == Meaning(b)
  {
    assert Meaning(a).items == Meaning(b).items;
  }

  lemma SameFields(a: Value, b: Value, ka: seq<string>, kb: seq<string>)
    requires a.Map? && b.Map? && ka == kb
    requires forall k :: k in ka <==> k in a.fields
    requires forall k :: k in kb <==> k in b.fields
    requires forall j | 0 <= j < |ka| :: Meaning(a.fields[ka[j]]) == Meaning(b.fields[ka[j]])
    ensures Meaning(a) == Meaning(b)
  {
    forall k | k in a.fields ensures k in b.fields && Meaning(a.fields[k]) == Meaning(b.fields[k]) {
      assert k in ka;
    }
    assert a.fields.Keys == b.fields.Keys;
    assert Meaning(a).fields == Meaning(b).fields;
  }

  lemma ItemsStart(v: Value, i: nat, s: string)
    requires v.List? && i <= |v.items|
    ensures |PrintItems(v, i)| > 0
    ensures PrintItems(v, i)[0] == ']' <==> i == |v.items|
  {
    if i < |v.items| {
      FirstCharTellsKind(v.items[i]);
    }
  }

  lemma {:induction false} ItemsReadBack(a: Value, b: Value, i: nat, s: string, t: string)
    requires a.List? && b.List? && i <= |a.items| && i <= |b.items|
    requires PrintItems(a, i) + s == PrintItems(b, i) + t
    ensures |a.items| == |b.items| && s == t
    ensures forall j | i <= j < |a.items| :: Meaning(a.items[j]) == Meaning(b.items[j])
    decreases a, 1, |a.items| - i
  {
    ItemsStart(a, i, s);
    ItemsStart(b, i, t);
    SameFirst(PrintItems(a, i), s, PrintItems(b, i), t);
    if i == |a.items| {
      SamePrefix("]", s, t);
    } else {
      var va, vb := a.items[i], b.items[i];
      var ra, rb := PrintItems(a, i + 1), PrintItems(b, i + 1);
      PeelPrefix(Separator(i), Print(va) + ra, s, Print(vb) + rb, t);
      Regroup(Print(va), ra, s);
      Regroup(Print(vb), rb, t);
      RestDelimited(a, i + 1, s);
      RestDelimited(b, i + 1, t);
      PrintReadsBack(va, vb, ra + s, rb + t);
      ItemsReadBack(a, b, i + 1, s, t);
    }
  }

  lemma RestDelimited(v: Value, i: nat, s: string)
    requires v.List? && 0 < i <= |v.items|
    ensures Delimited(PrintItems(v, i) + s)
  {}

  lemma FieldsStart(v: Value, keys: seq<string>, i: nat)
    requires v.Map? && i <= |keys| && forall k | k in keys :: k in v.fields
    ensures |PrintFields(v, keys, i)| > 0
    ensures PrintFields(v, keys, i)[0] == '}' <==> i == |keys|
    ensures i > 0 ==> PrintFields(v, keys, i)[0] in [',', '}']
  {
    if i < |keys| {
      assert Quote(keys[i])[0] == '"';
    }
  }

  lemma {:induction false} FieldsReadBack(a: Value, ka: seq<string>, b: Value, kb: seq<string>,
                                          i: nat, s: string, t: string)
    requires a.Map? && i <= |ka| && forall k | k in ka :: k in a.fields
    requires b.Map? && i <= |kb| && forall k | k in kb :: k in b.fields
    requires PrintFields(a, ka, i) + s == PrintFields(b, kb, i) + t
    ensures ka[i..] == kb[i..] && |ka| == |kb| && s == t
    ensures forall j | i <= j < |ka| :: Meaning(a.fields[ka[j]]) == Meaning(b.fields[kb[j]])
    decreases a, 1, |ka| - i
  {
    FieldsStart(a, ka, i);
    FieldsStart(b, kb, i);
    SameFirst(PrintFields(a, ka, i), s, PrintFields(b, kb, i), t);
    if i == |ka| {
      SamePrefix("}", s, t);
    } else {
      var va, vb := a.fields[ka[i]], b.fields[kb[i]];
      var ra, rb := PrintFields(a, ka, i + 1), PrintFields(b, kb, i + 1);
      PeelPrefix(Separator(i), Quote(ka[i]) + (":" + (Print(va) + ra)), s,
                               Quote(kb[i]) + (":" + (Print(vb) + rb)), t);
      FieldReadsBack(ka[i], va, ra + s, kb[i], vb, rb + t) by {
        NestedField(ka[i], va, ra, s);
        NestedField(kb[i], vb, rb, t);
      }
      FieldsStart(a, ka, i + 1);
      FieldsStart(b, kb, i + 1);
      PrintReadsBack(va, vb, ra + s, rb + t);
      FieldsReadBack(a, ka, b, kb, i + 1, s, t);
      assert ka[i..] == [ka[i]] + ka[i + 1..] && kb[i..] == [kb[i]] + kb[i + 1..];
    }
  }

  lemma NestedField(k: string, v: Value, r: string, s: string)
    ensures (Quote(k) + (":" + (Print(v) + r))) + s == Quote(k) + (":" + (Print(v) + (r + s)))
  {
    Regroup(Quote(k), ":" + (Print(v) + r), s);
    Regroup(":", Print(v) + r, s);
    Regroup(Print(v), r, s);
  }

  lemma FieldReadsBack(ka: string, va: Value, ra: string, kb: string, vb: Value, rb: string)
    requires Quote(ka) + (":" + (Print(va) + ra)) == Quote(kb) + (":" + (Print(vb) + rb))
    ensures ka == kb && Print(va) + ra == Print(vb) + rb
  {
    QuoteReadsBack(ka, kb, ":" + (Print(va) + ra), ":" + (Print(vb) + rb));
    SamePrefix(":", Print(va) + ra, Print(vb) + rb);
  }

  /** The converse: values that mean the same print the same. */
  lemma {:induction false} SameMeaningSamePrint(a: Value, b: Value)
    requires Meaning(a) == Meaning(b)
    ensures Print(a) == Print(b)
    decreases a, 2
  {
    match a
    case List(_) => SameItemsSamePrint(a, b, 0);
    case Map(_) =>
      assert a.fields.Keys == Meaning(a).fields.Keys == Meaning(b).fields.Keys == b.fields.Keys;
      SameFieldsSamePrint(a, b, SortedKeys(a.fields.Keys), 0);
    case _ =>
  }

  lemma {:induction false} SameItemsSamePrint(a: Value, b: Value, i: nat)
    requires a.List? && b.List? && Meaning(a) == Meaning(b) && i <= |a.items|
    ensures |a.items| == |b.items| && PrintItems(a, i) == PrintItems(b, i)
    decreases a, 1, |a.items| - i
  {
    assert |a.items| == |Meaning(a).items| == |b.items|;
    if i < |a.items| {
      assert Meaning(a).items[i] == Meaning(a.items[i]) && Meaning(b).items[i] == Meaning(b.items[i]);
      SameMeaningSamePrint(a.items[i], b.items[i]);
      SameItemsSamePrint(a, b, i + 1);
    }
  }

  lemma {:induction false} SameFieldsSamePrint(a: Value, b: Value, keys: seq<string>, i: nat)
    requires a.Map? && b.Map? && Meaning(a) == Meaning(b) && i <= |keys|
    requires forall k | k in keys :: k in a.fields && k in b.fields
    ensures PrintFields(a, keys, i) == PrintFields(b, keys, i)
    decreases a, 1, |keys| - i
  {
    if i < |keys| {
      var k := keys[i];
      assert Meaning(a).fields[k] == Meaning(a.fields[k]) && Meaning(b).fields[k] == Meaning(b.fields[k]);
      SameMeaningSamePrint(a.fields[k], b.fields[k]);
      SameFieldsSamePrint(a, b, keys, i + 1);
    }
  }

  // ---- valuesEqual ----

  function Marshal(m: ValueMap): string {
    if m.NilMap? then "null" else Print(Map(m.entries))
  }

  /** valuesEqual: equal when both have no entries, otherwise when the JSON texts agree. */
  predicate ValuesEqual(a: ValueMap, b: ValueMap) {
    if |Entries(a)| == 0 && |Entries(b)| == 0 then true else Marshal(a) == Marshal(b)
  }

  /** Comparing the texts decides equality of meaning; nil counts as the empty map. */
  lemma ValuesEqualDecides(a: ValueMap, b: ValueMap)
    ensures ValuesEqual(a, b) <==> Meaning(Map(Entries(a))) == Meaning(Map(Entries(b)))
  {
    var x, y := Map(Entries(a)), Map(Entries(b));
    assert Meaning(x).fields.Keys == x.fields.Keys && Meaning(y).fields.Keys == y.fields.Keys;
    if |Entries(a)| == 0 && |Entries(b)| == 0 {
      assert x.fields == map[] == y.fields;
    } else if a.NilMap? || b.NilMap? {
      assert |x.fields.Keys| != |y.fields.Keys|;
      FirstCharTellsKind(x);
      FirstCharTellsKind(y);
    } else {
      if Print(x) == Print(y) {
        assert Print(x) + "" == Print(y) + "";
        PrintReadsBack(x, y, "", "");
      }
      if Meaning(x) == Meaning(y) { SameMeaningSamePrint(x, y); }
    }
  }

  lemma ValuesEqualIsEquivalence(a: ValueMap, b: ValueMap, c: ValueMap)
    ensures ValuesEqual(a, a)
    ensures ValuesEqual(a, b) ==> ValuesEqual(b, a)
    ensures ValuesEqual(a, b) && ValuesEqual(b, c) ==> ValuesEqual(a, c)
  {
    ValuesEqualDecides(a, a);
    ValuesEqualDecides(a, b);
    ValuesEqualDecides(b, a);
    ValuesEqualDecides(b, c);
    ValuesEqualDecides(a, c);
  }

  /** What Helm hands back after storing a config: every number has become a float64. */
  function Reload(v: Value): Value {
    match v
    case Int(n) => Float(n)
    case List(items) => List(seq(|items|, i requires 0 <= i < |items| => Reload(items[i])))
    case Map(fields) => Map(map k | k in fields :: Reload(fields[k]))
    case _ => v
  }

  lemma {:induction false} ReloadKeepsMeaning(v: Value)
    ensures Meaning(Reload(v)) == Meaning(v)
  {
    match v
    case List(items) =>
      forall i | 0 <= i < |items| ensures Meaning(Reload(items[i])) == Meaning(items[i]) {
        ReloadKeepsMeaning(items[i]);
      }
      assert Meaning(Reload(v)).items == Meaning(v).items;
    case Map(fields) =>
      forall k | k in fields ensures Meaning(Reload(fields[k])) == Meaning(fields[k]) {
        ReloadKeepsMeaning(fields[k]);
      }
      assert Meaning(Reload(v)).fields == Meaning(v).fields;
    case _ =>
  }

  lemma ReloadedValuesStayEqual(m: ValueMap)
    ensures ValuesEqual(MapOf(Reload(Map(Entries(m))).fields), m)
  {
    ReloadKeepsMeaning(Map(Entries(m)));
    ValuesEqualDecides(MapOf(Reload(Map(Entries(m))).fields), m);
  }
}
