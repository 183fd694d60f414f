/** The monitor's normaliser: keys sorted at every depth, and a size cap whose cut is
    kept only when it happens to be a JSON text itself. */
module Normalizer {
  import opened Texts
  import opened Paths
  import opened JsonText
  import J = Json
  import opened InferOrder
  import opened SchemaInfer

  // ---- Sorting keys ----

  function SortKeys(v: J.Json): J.Json
    decreases v, 1
  {
    match v
    case Object(fs) => J.Object(SortBy(SortFields(fs), J.KeyOf))
    case List(items) => J.List(SortItems(items))
    case _ => v
  }

  function SortFields(fs: seq<J.Field>): (r: seq<J.Field>)
    ensures |r| == |fs| && forall i | 0 <= i < |fs| :: r[i] == J.Field(fs[i].key, SortKeys(fs[i].value))
    decreases fs, 0
  {
    if fs == [] then [] else [J.Field(fs[0].key, SortKeys(fs[0].value))] + SortFields(fs[1..])
  }

  function SortItems(items: seq<J.Json>): (r: seq<J.Json>)
    ensures |r| == |items| && forall i | 0 <= i < |items| :: r[i] == SortKeys(items[i])
    decreases items, 0
  {
    if items == [] then [] else [SortKeys(items[0])] + SortItems(items[1..])
  }

  lemma {:induction false} SortedFieldFrom(fs: seq<J.Field>, f: J.Field)
    requires f in SortBy(SortFields(fs), J.KeyOf)
    ensures exists i | 0 <= i < |fs| :: f == J.Field(fs[i].key, SortKeys(fs[i].value))
  {
    SameMultisetSameMembers(SortFields(fs), SortBy(SortFields(fs), J.KeyOf), f);
    var i :| 0 <= i < |fs| && SortFields(fs)[i] == f;
    assert f == J.Field(fs[i].key, SortKeys(fs[i].value));
  }

  lemma {:induction false} SortedFieldOf(fs: seq<J.Field>, i: nat)
    requires i < |fs|
    ensures J.Field(fs[i].key, SortKeys(fs[i].value)) in SortBy(SortFields(fs), J.KeyOf)
  {
    SameMultisetSameMembers(SortFields(fs), SortBy(SortFields(fs), J.KeyOf), SortFields(fs)[i]);
  }

  lemma {:induction false} SortedFieldsApart(fs: seq<J.Field>)
    requires J.DistinctKeys(fs)
    ensures KeysApart(SortBy(SortFields(fs), J.KeyOf), J.KeyOf)
  {
    var r := SortFields(fs);
    assert KeysApart(r, J.KeyOf) by {
      forall i, j | 0 <= i < j < |r| ensures J.KeyOf(r[i]) != J.KeyOf(r[j]) {
        assert r[i].key == fs[i].key && r[j].key == fs[j].key;
      }
    }
    PermutationKeepsKeysApart(r, SortBy(r, J.KeyOf), J.KeyOf);
  }

  predicate HasSorted(gs: seq<J.Field>, key: string, value: J.Json) {
    exists j | 0 <= j < |gs| :: gs[j].key == key && SortKeys(gs[j].value) == value
  }

  ghost predicate FieldsIncluded(fs: seq<J.Field>, gs: seq<J.Field>) {
    forall i | 0 <= i < |fs| :: HasSorted(gs, fs[i].key, SortKeys(fs[i].value))
  }

  lemma {:induction false} SortedFieldsIncluded(fs: seq<J.Field>, gs: seq<J.Field>, f: J.Field)
    requires FieldsIncluded(fs, gs) && f in SortBy(SortFields(fs), J.KeyOf)
    ensures f in SortBy(SortFields(gs), J.KeyOf)
  {
    SortedFieldFrom(fs, f);
    var i :| 0 <= i < |fs| && f == J.Field(fs[i].key, SortKeys(fs[i].value));
    assert HasSorted(gs, fs[i].key, SortKeys(fs[i].value));
    var j :| 0 <= j < |gs| && gs[j].key == fs[i].key && SortKeys(gs[j].value) == SortKeys(fs[i].value);
    SortedFieldOf(gs, j);
  }

  /** Equivalent responses normalise to the same value. */
  lemma {:induction false} SortKeysCanonical(v: J.Json, w: J.Json)
    requires SameUpToOrder(v, w)
    ensures SortKeys(v) == SortKeys(w)
    decreases v, 1
  {
    match v
    case Object(fs) =>
      FieldsSortAlike(fs, w.fields);
      SortedFieldsEqual(fs, w.fields);
    case List(items) =>
      forall i | 0 <= i < |items| ensures SortKeys(items[i]) == SortKeys(w.items[i]) {
        SortKeysCanonical(items[i], w.items[i]);
      }
    case _ =>
  }

  lemma {:induction false} FieldsSortAlike(fs: seq<J.Field>, gs: seq<J.Field>)
    requires SameUpToOrder(J.Object(fs), J.Object(gs))
    ensures FieldsIncluded(fs, gs) && FieldsIncluded(gs, fs)
    decreases fs, 0
  {
    forall i | 0 <= i < |fs| ensures HasSorted(gs, fs[i].key, SortKeys(fs[i].value)) {
      assert HasKey(gs, fs[i].key);
      var j :| 0 <= j < |gs| && gs[j].key == fs[i].key;
      SortKeysCanonical(fs[i].value, gs[j].value);
    }
    forall j | 0 <= j < |gs| ensures HasSorted(fs, gs[j].key, SortKeys(gs[j].value)) {
      assert HasKey(fs, gs[j].key);
      var i :| 0 <= i < |fs| && fs[i].key == gs[j].key;
      SortKeysCanonical(fs[i].value, gs[j].value);
    }
  }

  lemma {:induction false} SortedFieldsEqual(fs: seq<J.Field>, gs: seq<J.Field>)
    requires J.DistinctKeys(fs) && J.DistinctKeys(gs) && FieldsIncluded(fs, gs) && FieldsIncluded(gs, fs)
    ensures SortBy(SortFields(fs), J.KeyOf) == SortBy(SortFields(gs), J.KeyOf)
  {
    var a, b := SortBy(SortFields(fs), J.KeyOf), SortBy(SortFields(gs), J.KeyOf);
    SortedFieldsApart(fs);
    SortedFieldsApart(gs);
    forall f ensures f in a <==> f in b {
      if f in a { SortedFieldsIncluded(fs, gs, f); }
      if f in b { SortedFieldsIncluded(gs, fs, f); }
    }
    SortedApartUnique(a, b, J.KeyOf);
  }

  /** Sorting changes nothing but the order of keys. */
  lemma {:induction false} SortKeysSame(v: J.Json)
    requires J.Valid(v)
    ensures SameUpToOrder(v, SortKeys(v))
    decreases v, 1
  {
    match v
    case Object(fs) => SortFieldsSame(fs);
    case List(items) =>
      forall i | 0 <= i < |items| ensures SameUpToOrder(items[i], SortKeys(items[i])) { SortKeysSame(items[i]); }
    case _ =>
  }

  lemma {:induction false} SortFieldsSame(fs: seq<J.Field>)
    requires J.Valid(J.Object(fs))
    ensures SameUpToOrder(J.Object(fs), SortKeys(J.Object(fs)))
    decreases fs, 0
  {
    var r := SortBy(SortFields(fs), J.KeyOf);
    SortedFieldsApart(fs);
    SortedHasKeys(fs);
    forall i, j | 0 <= i < |fs| && 0 <= j < |r| && r[j].key == fs[i].key ensures SameUpToOrder(fs[i].value, r[j].value) {
      SortedPair(fs, i, j);
      SortKeysSame(fs[i].value);
    }
    ApartIsDistinct(r);
  }

  lemma {:induction false} SortedHasKeys(fs: seq<J.Field>)
    ensures var r := SortBy(SortFields(fs), J.KeyOf);
      && (forall i | 0 <= i < |fs| :: HasKey(r, fs[i].key))
      && (forall j | 0 <= j < |r| :: HasKey(fs, r[j].key))
  {
    var r := SortBy(SortFields(fs), J.KeyOf);
    forall i | 0 <= i < |fs| ensures HasKey(r, fs[i].key) {
      SortedFieldOf(fs, i);
      var j :| 0 <= j < |r| && r[j] == J.Field(fs[i].key, SortKeys(fs[i].value));
      assert r[j].key == fs[i].key;
    }
    forall j | 0 <= j < |r| ensures HasKey(fs, r[j].key) { SortedFieldFrom(fs, r[j]); }
  }

  lemma {:induction false} SortedPair(fs: seq<J.Field>, i: nat, j: nat)
    requires J.DistinctKeys(fs) && i < |fs| && j < |fs| && SortBy(SortFields(fs), J.KeyOf)[j].key == fs[i].key
    ensures SortBy(SortFields(fs), J.KeyOf)[j] == J.Field(fs[i].key, SortKeys(fs[i].value))
  {
    var f := SortBy(SortFields(fs), J.KeyOf)[j];
    SortedFieldFrom(fs, f);
    var k :| 0 <= k < |fs| && f == J.Field(fs[k].key, SortKeys(fs[k].value));
    assert k == i;
  }

  lemma {:induction false} ApartIsDistinct(fs: seq<J.Field>)
    requires KeysApart(fs, J.KeyOf)
    ensures J.DistinctKeys(fs)
  {
    forall i, j | 0 <= i < j < |fs| ensures fs[i].key != fs[j].key { assert J.KeyOf(fs[i]) != J.KeyOf(fs[j]); }
  }

  lemma {:induction false} SortKeysClean(v: J.Json)
    requires Clean(v)
    ensures Clean(SortKeys(v))
    decreases v, 1
  {
    match v
    case Object(fs) => SortFieldsClean(fs);
    case List(items) =>
      forall i | 0 <= i < |items| ensures J.KeysSatisfy(SortKeys(items[i]), CleanKey) { SortKeysClean(items[i]); }
    case _ =>
  }

  lemma {:induction false} SortFieldsClean(fs: seq<J.Field>)
    requires Clean(J.Object(fs))
    ensures Clean(SortKeys(J.Object(fs)))
    decreases fs, 0
  {
    var r := SortBy(SortFields(fs), J.KeyOf);
    forall j | 0 <= j < |r| ensures CleanKey(r[j].key) && J.KeysSatisfy(r[j].value, CleanKey) {
      SortedFieldFrom(fs, r[j]);
      var k :| 0 <= k < |fs| && r[j] == J.Field(fs[k].key, SortKeys(fs[k].value));
      SortKeysClean(fs[k].value);
    }
  }

  // ---- The compact text ----

  /** The code of a character in four hex digits, as a \u escape prints it. */
  function HexDigit(n: nat): char
    requires n < 16
  {
    if n < 10 then '0' + n as char else 'a' + (n - 10) as char
  }

  function Hex4(n: nat): string
    requires n < 0x1_0000
  {
    [HexDigit(n / 0x1000), HexDigit(n / 0x100 % 0x10), HexDigit(n / 0x10 % 0x10), HexDigit(n % 0x10)]
  }

  /** One character of a string, printed in ASCII: beyond 16 bits as a surrogate pair. */
  function CharUnits(c: char): seq<Unit> {
    if c == '"' || c == '\\' then [Short(c)]
    else if c == '\n' then [Short('n')]
    else if c == '\r' then [Short('r')]
    else if c == '\t' then [Short('t')]
    else if c == 8 as char then [Short('b')]
    else if c == 12 as char then [Short('f')]
    else if ' ' <= c <= '~' then [Plain(c)]
    else
      var n := c as int;
      if n < 0x1_0000 then [Hex(Hex4(n))]
      else
        var m := n - 0x1_0000;
        [Hex(Hex4(0xd800 + m / 0x400)), Hex(Hex4(0xdc00 + m % 0x400))]
  }

  function StringUnits(s: string): seq<Unit> {
    if s == "" then [] else CharUnits(s[0]) + StringUnits(s[1..])
  }

  function IntNumber(i: int): Number { Number(i < 0, Decimal(if i < 0 then -i else i), "", "") }

  /** `json.dumps(v, separators=(",", ":"))`. */
  function Dump(v: J.Json): string
    decreases v, 1
  {
    match v
    case Null => "null"
    case Bool(b) => if b then "true" else "false"
    case Int(i) => (if i < 0 then "-" else "") + Decimal(if i < 0 then -i else i)
    case Float(lit) => lit
    case Str(s) => Quoted(StringUnits(s))
    case List(items) => "[" + DumpItems(items) + "]"
    case Object(fs) => "{" + DumpFields(fs) + "}"
  }

  function DumpItems(items: seq<J.Json>): string
    decreases items, 0
  {
    if items == [] then "" else Dump(items[0]) + (if |items| == 1 then "" else "," + DumpItems(items[1..]))
  }

  function DumpFields(fs: seq<J.Field>): string
    decreases fs, 0
  {
    if fs == [] then ""
    else Quoted(StringUnits(fs[0].key)) + ":" + Dump(fs[0].value) + (if |fs| == 1 then "" else "," + DumpFields(fs[1..]))
  }

  /** Floats print as numbers or as one of the words for what is not a number. */
  ghost predicate FloatText(lit: string) { IsNumber(lit) || lit in {"NaN", "Infinity", "-Infinity"} }

  ghost predicate FloatsPrint(v: J.Json) {
    match v
    case Float(lit) => FloatText(lit)
    case List(items) => forall i | 0 <= i < |items| :: FloatsPrint(items[i])
    case Object(fs) => forall i | 0 <= i < |fs| :: FloatsPrint(fs[i].value)
    case _ => true
  }

  // ---- A printed value is a JSON text ----

  lemma {:induction false} Hex4Good(n: nat)
    requires n < 0x1_0000
    ensures GoodUnit(Hex(Hex4(n)))
  {
  }

  lemma {:induction false} StringUnitsGood(s: string)
    ensures GoodUnits(StringUnits(s))
  {
    if s != "" {
      var n := s[0] as int;
      if n < 0x1_0000 { Hex4Good(n); }
      else {
        Hex4Good(0xd800 + (n - 0x1_0000) / 0x400);
        Hex4Good(0xdc00 + (n - 0x1_0000) % 0x400);
      }
      StringUnitsGood(s[1..]);
    }
  }

  lemma {:induction false} DecimalHead(n: nat)
    ensures n > 0 ==> Decimal(n)[0] != '0'
    ensures n == 0 ==> Decimal(n) == "0"
  {
    if n >= 10 { DecimalHead(n / 10); }
  }

  lemma {:induction false} IntIsNumber(i: int)
    ensures GoodNumber(IntNumber(i)) && NumberText(IntNumber(i)) == Dump(J.Int(i))
  {
    var n := if i < 0 then -i else i;
    DecimalHead(n);
    var s := (if i < 0 then "-" else "") + Decimal(n);
    assert s + "" + "" == s;
  }

  /** The tree a value is printed as. */
  ghost function TreeOf(v: J.Json): Tree
    requires FloatsPrint(v)
    decreases v, 1
  {
    match v
    case Null => Word("null")
    case Bool(b) => Word(if b then "true" else "false")
    case Int(i) => Num(IntNumber(i))
    case Float(lit) =>
      if IsNumber(lit) then var n :| GoodNumber(n) && NumberText(n) == lit; Num(n) else Word(lit)
    case Str(s) => Text(StringUnits(s))
    case List(items) => Array("", TreesOf(items))
    case Object(fs) => Tree.Object("", MembersOf(fs))
  }

  ghost function TreesOf(items: seq<J.Json>): (es: seq<Element>)
    requires forall i | 0 <= i < |items| :: FloatsPrint(items[i])
    ensures |es| == |items|
    decreases items, 0
  {
    if items == [] then [] else [Element("", TreeOf(items[0]), "")] + TreesOf(items[1..])
  }

  ghost function MembersOf(fs: seq<J.Field>): (ms: seq<Member>)
    requires forall i | 0 <= i < |fs| :: FloatsPrint(fs[i].value)
    ensures |ms| == |fs|
    decreases fs, 0
  {
    if fs == [] then []
    else [Member("", StringUnits(fs[0].key), "", Element("", TreeOf(fs[0].value), ""))] + MembersOf(fs[1..])
  }

  /** What is printed is the text of a good tree, so it parses. */
  lemma {:induction false} DumpIsText(v: J.Json)
    requires FloatsPrint(v)
    ensures Good(TreeOf(v)) && TextOf(TreeOf(v)) == Dump(v)
    decreases v, 1
  {
    match v
    case Int(i) => IntIsNumber(i);
    case Str(s) => StringUnitsGood(s);
    case List(items) => ItemsAreText(items);
    case Object(fs) => FieldsAreText(fs);
    case _ =>
  }

  /** An element without white space. */
  lemma {:induction false} CompactElement(t: Tree)
    ensures ElementText(Element("", t, "")) == TextOf(t)
  {
    assert ElementText(Element("", t, "")) == "" + TextOf(t) + "" == TextOf(t);
  }

  lemma {:induction false} ItemsAreText(items: seq<J.Json>)
    requires forall i | 0 <= i < |items| :: FloatsPrint(items[i])
    ensures (forall i | 0 <= i < |items| :: GoodElement(TreesOf(items)[i])) && ElementsText(TreesOf(items)) == DumpItems(items)
    decreases items, 0
  {
    if items != [] {
      DumpIsText(items[0]);
      ItemsAreText(items[1..]);
      assert TreesOf(items)[1..] == TreesOf(items[1..]);
      CompactElement(TreeOf(items[0]));
    }
  }

  /** A member without white space. */
  lemma {:induction false} CompactMember(key: seq<Unit>, t: Tree)
    ensures MemberText(Member("", key, "", Element("", t, ""))) == Quoted(key) + ":" + TextOf(t)
  {
    CompactElement(t);
    assert "" + Quoted(key) + "" == Quoted(key);
  }

  lemma {:induction false} FieldsAreText(fs: seq<J.Field>)
    requires forall i | 0 <= i < |fs| :: FloatsPrint(fs[i].value)
    ensures (forall i | 0 <= i < |fs| :: GoodMember(MembersOf(fs)[i])) && MembersText(MembersOf(fs)) == DumpFields(fs)
    decreases fs, 0
  {
    if fs != [] {
      DumpIsText(fs[0].value);
      StringUnitsGood(fs[0].key);
      FieldsAreText(fs[1..]);
      assert MembersOf(fs)[1..] == MembersOf(fs[1..]);
      CompactMember(StringUnits(fs[0].key), TreeOf(fs[0].value));
    }
  }

  lemma {:induction false} SortKeysKeepsFloats(v: J.Json)
    requires FloatsPrint(v)
    ensures FloatsPrint(SortKeys(v))
    decreases v
  {
    match v
    case Object(fs) =>
      var r := SortBy(SortFields(fs), J.KeyOf);
      forall j | 0 <= j < |r| ensures FloatsPrint(r[j].value) {
        SortedFieldFrom(fs, r[j]);
        var k :| 0 <= k < |fs| && r[j] == J.Field(fs[k].key, SortKeys(fs[k].value));
        SortKeysKeepsFloats(fs[k].value);
      }
    case List(items) =>
      forall i | 0 <= i < |items| ensures FloatsPrint(SortKeys(items[i])) { SortKeysKeepsFloats(items[i]); }
    case _ =>
  }

  // ---- The cap ----

  /** `max_bytes or raw_body_max_bytes`: no bound and the bound 0 both mean the default. */
  function Cap(max: Option<int>, byDefault: int): int {
    if max.None? || max.value == 0 then byDefault else max.value
  }

  /** Where `text[:cap]` cuts a text longer than the cap; a negative cap counts from the end. */
  function CutAt(size: nat, cap: int): (k: nat)
    requires size > cap
    ensures size > 0 ==> k < size
    ensures k <= size
  {
    if cap >= 0 then cap else if size + cap > 0 then size + cap else 0
  }

  function Marker(size: nat): J.Json {
    J.Object([J.Field("_truncated", J.Bool(true)), J.Field("_size_bytes", J.Int(size))])
  }

  /** What is kept of a response body; `loads` parses a text, or fails. */
  function Normalize(body: J.Json, max: Option<int>, byDefault: int, loads: string -> Option<J.Json>): J.Json {
    var sorted := SortKeys(body);
    var text := Dump(sorted);
    var cap := Cap(max, byDefault);
    if |text| <= cap then sorted
    else
      var parsed := loads(text[..CutAt(|text|, cap)]);
      if parsed.Some? then parsed.value else Marker(|text|)
  }

  ghost predicate Parses(loads: string -> Option<J.Json>) { forall s :: loads(s).Some? <==> IsJson(s) }

  /** The body as it runs: the kept value is reassigned when the cut text parses. */
  method NormalizeBody(body: J.Json, max: Option<int>, byDefault: int, loads: string -> Option<J.Json>) returns (r: J.Json)
    ensures r == Normalize(body, max, byDefault, loads)
  {
    var cap := Cap(max, byDefault);
    r := SortKeys(body);
    var text := Dump(r);
    if |text| > cap {
      var truncated := text[..CutAt(|text|, cap)];
      match loads(truncated) {
        case Some(value) => r := value;
        case None => r := Marker(|text|);
      }
    }
  }

  predicate IsNumeric(v: J.Json) { v.Int? || v.Float? }

  /** Of all values over the cap, only a number cut to a shorter number still parses. */
  lemma {:induction false} CutParsesIffNumber(v: J.Json, k: nat)
    requires FloatsPrint(v) && k < |Dump(v)|
    ensures IsJson(Dump(v)[..k]) <==> IsNumeric(v) && IsNumber(Dump(v)[..k])
  {
    DumpIsText(v);
    match v
    case List(_) => CutContainerIsNotJson(TreeOf(v), k);
    case Object(_) => CutContainerIsNotJson(TreeOf(v), k);
    case Str(s) => StringUnitsGood(s); CutStringIsNotJson(StringUnits(s), k);
    case Int(i) => IntIsNumber(i); CutBareIsJsonIffNumber(Dump(v), k);
    case Float(lit) => CutBareIsJsonIffNumber(lit, k);
    case Null => CutBareIsJsonIffNumber("null", k); WordCutIsNotNumber("null", k);
    case Bool(_) => CutBareIsJsonIffNumber(Dump(v), k); WordCutIsNotNumber(Dump(v), k);
  }

  lemma {:induction false} SortKeepsKind(v: J.Json)
    ensures IsNumeric(SortKeys(v)) == IsNumeric(v) && J.IsScalar(SortKeys(v)) == J.IsScalar(v)
    ensures J.IsScalar(v) ==> SortKeys(v) == v
  {
  }

  lemma {:induction false} DumpNonempty(v: J.Json)
    requires FloatsPrint(v)
    ensures Dump(v) != ""
  {
    DumpIsText(v);
    TreeTextNonempty(TreeOf(v));
  }

  /** Exactly when a body over the cap is not replaced by the marker: it is a number
      whose cut text is a number again. An object or an array never survives in part. */
  lemma {:induction false} OverCapIsMarker(body: J.Json, max: Option<int>, byDefault: int, loads: string -> Option<J.Json>)
    requires FloatsPrint(body) && Parses(loads)
    ensures var text, cap := Dump(SortKeys(body)), Cap(max, byDefault);
      |text| > cap ==>
        var cut := text[..CutAt(|text|, cap)];
        Normalize(body, max, byDefault, loads) ==
          if IsNumeric(body) && IsNumber(cut) && loads(cut).Some? then loads(cut).value else Marker(|text|)
  {
    var sorted, cap := SortKeys(body), Cap(max, byDefault);
    var text := Dump(sorted);
    SortKeysKeepsFloats(body);
    SortKeepsKind(body);
    DumpNonempty(sorted);
    if |text| > cap { CutParsesIffNumber(sorted, CutAt(|text|, cap)); }
  }

  /** In particular, for objects and arrays the result is the whole value or the marker. */
  lemma {:induction false} ContainersNeverPartial(body: J.Json, max: Option<int>, byDefault: int, loads: string -> Option<J.Json>)
    requires FloatsPrint(body) && Parses(loads) && !J.IsScalar(body)
    ensures var text := Dump(SortKeys(body));
      Normalize(body, max, byDefault, loads) == if |text| <= Cap(max, byDefault) then SortKeys(body) else Marker(|text|)
  {
    OverCapIsMarker(body, max, byDefault, loads);
  }

  lemma {:induction false} DecimalOfThree()
    ensures Dump(J.Int(12)) == "12" && Dump(J.Int(123)) == "123"
  {
    assert Decimal(1) == "1" && Decimal(12) == "12" && Decimal(123) == "123";
  }

  /** A number over the cap can come back as a different number. */
  lemma {:induction false} NumbersCanBeCut(loads: string -> Option<J.Json>)
    requires Parses(loads)
    ensures IsJson("12") && loads("12").Some?
    ensures Normalize(J.Int(123), Some(2), 0, loads) == loads("12").value
  {
    DecimalOfThree();
    DumpIsText(J.Int(12));
    TreeIsJson(TreeOf(J.Int(12)));
    assert "123"[..2] == "12";
  }

  /** Equivalent responses are kept alike. */
  lemma {:induction false} NormalizeIsStable(v: J.Json, w: J.Json, max: Option<int>, byDefault: int, loads: string -> Option<J.Json>)
    requires SameUpToOrder(v, w)
    ensures Normalize(v, max, byDefault, loads) == Normalize(w, max, byDefault, loads)
  {
    SortKeysCanonical(v, w);
  }

  // ---- What is inferred from the kept value ----

  lemma {:induction false} SortedInfersAlike(v: J.Json)
    requires J.Valid(v) && Clean(v)
    ensures Infer(SortKeys(v)) == Infer(v)
  {
    SortKeysSame(v);
    SortKeysClean(v);
    KeyOrderIrrelevant(v, SortKeys(v));
  }

  function PathsOf(nodes: seq<Node>): (paths: seq<string>)
    ensures |paths| == |nodes| && forall i | 0 <= i < |nodes| :: paths[i] == nodes[i].path
  {
    seq(|nodes|, i requires 0 <= i < |nodes| => nodes[i].path)
  }

  /** A sorted list with the finished accumulator of every path is the schema. */
  lemma {:induction false} NodesAre(ops: seq<Op>, nodes: seq<Node>)
    requires StrictlyByPath(nodes)
    requires forall i | 0 <= i < |nodes| :: var st := Folded(None, At(ops, nodes[i].path));
      st.Some? && nodes[i] == Finalize(nodes[i].path, st.value)
    requires forall path | Folded(None, At(ops, path)).Some? :: path in PathsOf(nodes)
    ensures Nodes(ops) == nodes
  {
    var paths := SortedSet(Touched(ops));
    forall path ensures path in paths <==> path in PathsOf(nodes) {
      TouchedHas(ops, path);
      assert path in paths <==> path in Touched(ops);
    }
    StrictlySortedUnique(paths, PathsOf(nodes));
    forall i | 0 <= i < |nodes| ensures Nodes(ops)[i] == nodes[i] { NodesAt(ops, i); }
  }

  function ScalarNode(path: string, v: J.Json): Node {
    Node(path, ScalarType(v), true, false, None, None, Some(v))
  }

  lemma {:induction false} ObservedOnce(path: string, v: J.Json)
    requires IsNumeric(v) || v.Bool?
    ensures Finalize(path, Observed(None, v)) == ScalarNode(path, v)
    ensures Folded(None, [Observe(v)]) == Some(Observed(None, v))
  {
    assert [Observe(v)][1..] == [];
    assert Folded(None, [Observe(v)]) == Folded(Some(Observed(None, v)), []);
  }

  /** A bare number is one node at the root. */
  lemma {:induction false} NumberInfers(v: J.Json)
    requires IsNumeric(v)
    ensures Infer(v) == [ScalarNode("[root]", v)]
  {
    var ops := [Op("[root]", Observe(v))];
    assert Walk(v, "") == ops;
    forall path ensures At(ops, path) == if path == "[root]" then [Observe(v)] else [] { assert ops[1..] == []; }
    ObservedOnce("[root]", v);
    assert PathsOf([ScalarNode("[root]", v)]) == ["[root]"];
    NodesAre(ops, [ScalarNode("[root]", v)]);
  }

  /** The schema of the marker of a text of this size. */
  function MarkerNodes(size: nat): seq<Node> {
    [ScalarNode("_size_bytes", J.Int(size)), ScalarNode("_truncated", J.Bool(true))]
  }

  /** The updates of an object of two scalars. */
  lemma {:induction false} TwoScalarsWalk(k: string, x: J.Json, l: string, y: J.Json)
    requires J.IsScalar(x) && J.IsScalar(y)
    ensures Walk(J.Object([J.Field(k, x), J.Field(l, y)]), "") == [Op(k, Observe(x)), Op(l, Observe(y))]
  {
    var fs := [J.Field(k, x), J.Field(l, y)];
    assert fs[1..] == [J.Field(l, y)] && fs[1..][1..] == [];
    assert Join("", k) == k && Join("", l) == l;
    assert Emit(k, x) == [Op(k, Observe(x))] && Emit(l, y) == [Op(l, Observe(y))];
    assert EmitFields(fs[1..], "") == Emit(l, y) + EmitFields([], "");
    assert EmitFields(fs, "") == Emit(k, x) + EmitFields(fs[1..], "");
  }

  /** The updates of the marker, at each path. */
  lemma {:induction false} MarkerTrace(size: nat, path: string)
    ensures At(Walk(Marker(size), ""), path) ==
      if path == "_truncated" then [Observe(J.Bool(true))] else if path == "_size_bytes" then [Observe(J.Int(size))] else []
  {
    var first, second := Op("_truncated", Observe(J.Bool(true))), Op("_size_bytes", Observe(J.Int(size)));
    TwoScalarsWalk("_truncated", J.Bool(true), "_size_bytes", J.Int(size));
    AtOne(second.path, second.update, path);
    AtOne(first.path, first.update, path);
    AtAppend([first], [second], path);
    assert [first] + [second] == [first, second];
    assert "_truncated"[1] != "_size_bytes"[1];
  }

  lemma {:induction false} MarkerInOrder(size: nat)
    ensures StrictlyByPath(MarkerNodes(size))
  {
    assert "_size_bytes"[1] < "_truncated"[1];
    assert AtMost("_size_bytes", "_truncated") by { assert AtMost("_size_bytes"[1..], "_truncated"[1..]); }
  }

  lemma {:induction false} MarkerInfers(size: nat)
    ensures Infer(Marker(size)) == MarkerNodes(size)
  {
    MarkerInOrder(size);
    forall path ensures Folded(None, At(Walk(Marker(size), ""), path)).Some? ==> path in ["_size_bytes", "_truncated"] {
      MarkerTrace(size, path);
    }
    MarkerTrace(size, "_truncated");
    MarkerTrace(size, "_size_bytes");
    ObservedOnce("_truncated", J.Bool(true));
    ObservedOnce("_size_bytes", J.Int(size));
    assert PathsOf(MarkerNodes(size)) == ["_size_bytes", "_truncated"];
    NodesAre(Walk(Marker(size), ""), MarkerNodes(size));
  }

  /** A number's text parses to a number. */
  ghost predicate NumbersParse(loads: string -> Option<J.Json>) {
    forall s :: IsNumber(s) && loads(s).Some? ==> IsNumeric(loads(s).value)
  }

  /** What the monitor infers from the kept value: under the cap the schema of the response
      itself; over it that of the marker, unless the response is a number whose cut text
      still is one, and then the one node of that number. */
  lemma {:induction false} InferenceSeesThrough(body: J.Json, max: Option<int>, byDefault: int, loads: string -> Option<J.Json>)
    requires J.Valid(body) && Clean(body) && FloatsPrint(body) && Parses(loads) && NumbersParse(loads)
    ensures var text, cap := Dump(SortKeys(body)), Cap(max, byDefault);
      Infer(Normalize(body, max, byDefault, loads)) ==
        if |text| <= cap then Infer(body)
        else
          var cut := text[..CutAt(|text|, cap)];
          if IsNumeric(body) && IsNumber(cut) && loads(cut).Some? then [ScalarNode("[root]", loads(cut).value)] else MarkerNodes(|text|)
  {
    var text, cap := Dump(SortKeys(body)), Cap(max, byDefault);
    if |text| <= cap {
      SortedInfersAlike(body);
    } else {
      var cut := text[..CutAt(|text|, cap)];
      OverCapIsMarker(body, max, byDefault, loads);
      MarkerInfers(|text|);
      if IsNumber(cut) && loads(cut).Some? { NumberInfers(loads(cut).value); }
    }
  }
}
