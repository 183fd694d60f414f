/** The canonical structural string of a payload, and why it is a complete
    invariant of the payload's shape. */
module StructuralString {
  import opened Texts
  import opened Json

  function ScalarName(v: Json): string
    requires IsScalar(v)
  {
    match v
    case Null => "null"
    case Bool(_) => "bool"
    case Int(_) => "int"
    case Float(_) => "float"
    case Str(_) => "string"
  }

  // ---- From payload to syntax tree to text ----

  datatype Ast = Text(s: string) | AList(items: seq<string>) | ADict(fields: seq<AField>)
  datatype AField = AField(key: string, value: Ast)
  datatype Part = Part(key: string, text: string)

  function AKey(f: AField): string { f.key }
  function PKey(p: Part): string { p.key }
  function Whole(s: string): string { s }

  function ExtractType(v: Json): Ast
    decreases v, 1
  {
    match v
    case Object(fs) => ADict(SortBy(ExtractFields(fs), AKey))
    case List(items) =>
      if items == [] then AList(["empty_array"])
      else AList(SortedSet(ScalarNames(items)) + SortBy(StructTexts(items), Whole))
    case _ => Text(ScalarName(v))
  }

  function ExtractFields(fs: seq<Field>): (as_: seq<AField>)
    ensures |as_| == |fs|
    ensures forall i | 0 <= i < |fs| :: as_[i] == AField(fs[i].key, ExtractType(fs[i].value))
    decreases fs, 0
  {
    if fs == [] then [] else [AField(fs[0].key, ExtractType(fs[0].value))] + ExtractFields(fs[1..])
  }

  /** The scalar types that occur among the items. */
  function ScalarNames(items: seq<Json>): set<string> {
    set i | 0 <= i < |items| && IsScalar(items[i]) :: ScalarName(items[i])
  }

  /** The printed shapes of the structured items, in item order. */
  function StructTexts(items: seq<Json>): seq<string>
    decreases items, 0
  {
    if items == [] then []
    else (if IsScalar(items[0]) then [] else [Serialize(ExtractType(items[0]))]) + StructTexts(items[1..])
  }

  function Serialize(a: Ast): string
    decreases a, 1
  {
    match a
    case Text(s) => s
    case ADict(fs) => "object{" + Join(Printed(SortBy(SerializeFields(fs), PKey)), ';') + "}"
    case AList(items) => "array[" + Join(items, ',') + "]"
  }

  function SerializeFields(fs: seq<AField>): (ps: seq<Part>)
    ensures |ps| == |fs|
    ensures forall i | 0 <= i < |fs| :: ps[i] == Part(fs[i].key, Serialize(fs[i].value))
    decreases fs, 0
  {
    if fs == [] then [] else [Part(fs[0].key, Serialize(fs[0].value))] + SerializeFields(fs[1..])
  }

  function Print(p: Part): string { p.key + ":" + p.text }

  function Printed(ps: seq<Part>): (ts: seq<string>)
    ensures |ts| == |ps| && forall i | 0 <= i < |ps| :: ts[i] == Print(ps[i])
  {
    if ps == [] then [] else [Print(ps[0])] + Printed(ps[1..])
  }

  function Join(ts: seq<string>, sep: char): string {
    if ts == [] then "" else ts[0] + JoinRest(ts[1..], sep)
  }

  function JoinRest(ts: seq<string>, sep: char): string {
    if ts == [] then "" else [sep] + (ts[0] + JoinRest(ts[1..], sep))
  }

  /** The text of one value: what the source prints for it below the root. */
  function ShapeText(v: Json): string { Serialize(ExtractType(v)) }

  datatype Outcome = Ok(text: string) | TypeError

  /** Every root member printed, each closed by a semicolon; only objects have one. */
  function StructuralText(v: Json): Outcome {
    if v.Object? then Ok(Closed(Printed(SortBy(Parts(v.fields), PKey)))) else TypeError
  }

  function Parts(fs: seq<Field>): (ps: seq<Part>)
    ensures |ps| == |fs|
    ensures forall i | 0 <= i < |fs| :: ps[i] == Part(fs[i].key, ShapeText(fs[i].value))
  {
    if fs == [] then [] else [Part(fs[0].key, ShapeText(fs[0].value))] + Parts(fs[1..])
  }

  function Closed(ts: seq<string>): string {
    if ts == [] then "" else ts[0] + (";" + Closed(ts[1..]))
  }

  // ---- Shapes, independently of any text ----

  datatype Shape =
    | Scalar(name: string)
    | ObjectShape(fields: map<string, Shape>)
    | ListShape(scalars: set<string>, structures: multiset<Shape>)

  /** Keys with their shapes; for a list, the set of scalar types and the multiset of structured shapes. */
  function ShapeOf(v: Json): Shape
    decreases v, 1
  {
    match v
    case Object(fs) => ObjectShape(FieldShapes(fs))
    case List(items) => ListShape(ScalarNames(items), multiset(StructShapes(items)))
    case _ => Scalar(ScalarName(v))
  }

  function FieldShapes(fs: seq<Field>): map<string, Shape>
    decreases fs, 0
  {
    if fs == [] then map[] else map[fs[0].key := ShapeOf(fs[0].value)] + FieldShapes(fs[1..])
  }

  function StructShapes(items: seq<Json>): seq<Shape>
    decreases items, 0
  {
    if items == [] then []
    else (if IsScalar(items[0]) then [] else [ShapeOf(items[0])]) + StructShapes(items[1..])
  }

  // ---- Bracket depth: where a printed shape ends ----

  const BRACKETS: set<char> := {'{', '}', '[', ']'}

  predicate IsSeparator(c: char) { c == ';' || c == ',' }

  /** Depth after one character; -1 once a closer or the separator stands at depth 0. */
  function StepDepth(c: char, d: int, sep: char): int {
    if c == '{' || c == '[' then d + 1
    else if c == '}' || c == ']' then d - 1
    else if c == sep && d == 0 then -1
    else d
  }

  function Scan(s: string, d: int, sep: char): int
    decreases |s|
  {
    if d < 0 then -1 else if s == "" then d else Scan(s[1..], StepDepth(s[0], d, sep), sep)
  }

  /** A nonempty text that opens what it closes and has no `sep` outside brackets. */
  predicate Token(s: string, sep: char) { s != "" && Scan(s, 0, sep) == 0 }

  lemma {:induction false} ScanConcat(a: string, b: string, d: int, sep: char)
    ensures Scan(a + b, d, sep) == Scan(b, Scan(a, d, sep), sep)
    decreases |a|
  {
    if a == "" {
      assert a + b == b;
    } else if d >= 0 {
      assert (a + b)[0] == a[0] && (a + b)[1..] == a[1..] + b;
      ScanConcat(a[1..], b, StepDepth(a[0], d, sep), sep);
    }
  }

  /** Inside brackets no separator counts. */
  lemma {:induction false} ScanLift(s: string, d: nat, k: nat, sep: char, other: char)
    requires Scan(s, d, sep) >= 0 && k > 0
    ensures Scan(s, d + k, other) == Scan(s, d, sep) + k
    decreases |s|
  {
    if s != "" {
      ScanLift(s[1..], StepDepth(s[0], d, sep), k, sep, other);
    }
  }

  lemma {:induction false} PlainScan(s: string, d: nat, sep: char)
    requires Free(s, BRACKETS) && Free(s, {sep})
    ensures Scan(s, d, sep) == d
    decreases |s|
  {
    if s != "" {
      assert s[0] !in BRACKETS && s[0] != sep;
      PlainScan(s[1..], d, sep);
    }
  }

  predicate Delimited(x: string, sep: char) { x == "" || x[0] in {sep, '}', ']'} }

  lemma {:induction false} LongerIsNoToken(p: string, r: string, sep: char)
    requires Scan(p, 0, sep) == 0 && r != "" && Delimited(r, sep) && IsSeparator(sep)
    ensures Scan(p + r, 0, sep) == -1
  {
    ScanConcat(p, r, 0, sep);
    assert StepDepth(r[0], 0, sep) == -1;
  }

  /** A token ends at one place only: the first separator or closer outside brackets. */
  lemma {:induction false} TokenEnds(p: string, x: string, q: string, y: string, sep: char)
    requires Token(p, sep) && Token(q, sep) && Delimited(x, sep) && Delimited(y, sep) && IsSeparator(sep) && p + x == q + y
    ensures p == q && x == y
  {
    var s := p + x;
    assert s[..|p|] == p && s[|p|..] == x;
    assert (q + y)[..|q|] == q && (q + y)[|q|..] == y;
    if |p| < |q| {
      var r := s[|p|..|q|];
      assert q == p + r && r[0] == x[0];
      LongerIsNoToken(p, r, sep);
    } else if |q| < |p| {
      var r := s[|q|..|p|];
      assert p == q + r && r[0] == y[0];
      LongerIsNoToken(q, r, sep);
    }
  }

  ghost predicate Tokens(ts: seq<string>, sep: char) { forall i | 0 <= i < |ts| :: Token(ts[i], sep) }

  lemma {:induction false} JoinRestInjective(a: seq<string>, b: seq<string>, sep: char)
    requires Tokens(a, sep) && Tokens(b, sep) && IsSeparator(sep) && JoinRest(a, sep) == JoinRest(b, sep)
    ensures a == b
    decreases |a|
  {
    if a != [] && b != [] {
      var x, y := JoinRest(a[1..], sep), JoinRest(b[1..], sep);
      assert JoinRest(a, sep)[1..] == a[0] + x && JoinRest(b, sep)[1..] == b[0] + y;
      TokenEnds(a[0], x, b[0], y, sep);
      JoinRestInjective(a[1..], b[1..], sep);
      assert a == [a[0]] + a[1..] && b == [b[0]] + b[1..];
    }
  }

  lemma {:induction false} JoinInjective(a: seq<string>, b: seq<string>, sep: char)
    requires Tokens(a, sep) && Tokens(b, sep) && IsSeparator(sep) && Join(a, sep) == Join(b, sep)
    ensures a == b
  {
    if a != [] && b != [] {
      TokenEnds(a[0], JoinRest(a[1..], sep), b[0], JoinRest(b[1..], sep), sep);
      JoinRestInjective(a[1..], b[1..], sep);
      assert a == [a[0]] + a[1..] && b == [b[0]] + b[1..];
    }
  }

  lemma {:induction false} ClosedInjective(a: seq<string>, b: seq<string>)
    requires Tokens(a, ';') && Tokens(b, ';') && Closed(a) == Closed(b)
    ensures a == b
    decreases |a|
  {
    if a != [] && b != [] {
      TokenEnds(a[0], ";" + Closed(a[1..]), b[0], ";" + Closed(b[1..]), ';');
      assert (";" + Closed(a[1..]))[1..] == Closed(a[1..]) && (";" + Closed(b[1..]))[1..] == Closed(b[1..]);
      ClosedInjective(a[1..], b[1..]);
      assert a == [a[0]] + a[1..] && b == [b[0]] + b[1..];
    }
  }

  lemma {:induction false} JoinRestScan(ts: seq<string>, sep: char, other: char)
    requires Tokens(ts, sep) && IsSeparator(sep)
    ensures Scan(JoinRest(ts, sep), 1, other) == 1
    decreases |ts|
  {
    if ts != [] {
      var x := JoinRest(ts[1..], sep);
      ScanConcat([sep], ts[0] + x, 1, other);
      ScanConcat(ts[0], x, 1, other);
      ScanLift(ts[0], 0, 1, sep, other);
      JoinRestScan(ts[1..], sep, other);
      assert Scan([sep], 1, other) == Scan("", 1, other) == 1;
    }
  }

  lemma {:induction false} JoinScan(ts: seq<string>, sep: char, other: char)
    requires Tokens(ts, sep) && IsSeparator(sep)
    ensures Scan(Join(ts, sep), 1, other) == 1
  {
    if ts != [] {
      ScanConcat(ts[0], JoinRest(ts[1..], sep), 1, other);
      ScanLift(ts[0], 0, 1, sep, other);
      JoinRestScan(ts[1..], sep, other);
    }
  }

  /** An opening word, a body that stays at depth 1, and a closer make a token. */
  lemma {:induction false} WrappedIsToken(word: string, open: char, body: string, close: char, sep: char)
    requires Free(word, BRACKETS) && Free(word, {sep}) && open in {'{', '['} && close in {'}', ']'} && Scan(body, 1, sep) == 1
    ensures Token(word + [open] + body + [close], sep)
  {
    var a, b := word + [open], word + [open] + body;
    PlainScan(word, 0, sep);
    ScanConcat(word, [open], 0, sep);
    assert Scan([open], 0, sep) == Scan("", 1, sep) == 1;
    ScanConcat(a, body, 0, sep);
    ScanConcat(b, [close], 0, sep);
    assert Scan([close], 1, sep) == Scan("", 0, sep) == 0;
  }

  // ---- Texts of clean payloads are tokens ----

  /** A text that ends at the first semicolon, and at the first comma, outside its brackets. */
  predicate Closes(s: string) { Token(s, ';') && Token(s, ',') }

  /** A key without brackets and semicolons. */
  predicate ShapeKey(k: string) { Free(k, BRACKETS) && Free(k, {';'}) }

  predicate PrintsAs(a: AField, p: Part) { p.text == Serialize(a.value) }

  lemma {:induction false} SerializedParts(fs: seq<Field>)
    ensures SortBy(SerializeFields(SortBy(ExtractFields(fs), AKey)), PKey) == SortBy(Parts(fs), PKey)
  {
    var ex, ps := ExtractFields(fs), Parts(fs);
    SortParallel(ex, AKey, ps, PKey, PrintsAs);
    var u, v := SortBy(ex, AKey), SortBy(ps, PKey);
    forall i | 0 <= i < |u| ensures SerializeFields(u)[i] == v[i] {
      assert AKey(u[i]) == PKey(v[i]) && PrintsAs(u[i], v[i]);
    }
    assert SerializeFields(u) == v;
    SortOfSorted(v, PKey);
  }

  function ObjectBody(fs: seq<Field>): string { Join(Printed(SortBy(Parts(fs), PKey)), ';') }

  function ListTexts(items: seq<Json>): seq<string> {
    if items == [] then ["empty_array"] else SortedSet(ScalarNames(items)) + SortBy(StructTexts(items), Whole)
  }

  lemma {:induction false} DictText(fs: seq<AField>, ps: seq<Part>)
    requires SortBy(SerializeFields(fs), PKey) == ps
    ensures Serialize(ADict(fs)) == "object" + ['{'] + Join(Printed(ps), ';') + ['}']
  {
    assert "object{" == "object" + ['{'];
  }

  lemma {:induction false} ObjectText(fs: seq<Field>)
    ensures ShapeText(Object(fs)) == "object" + ['{'] + ObjectBody(fs) + ['}']
  {
    SerializedParts(fs);
    DictText(SortBy(ExtractFields(fs), AKey), SortBy(Parts(fs), PKey));
  }

  lemma {:induction false} ItemsText(texts: seq<string>)
    ensures Serialize(AList(texts)) == "array" + ['['] + Join(texts, ',') + [']']
  {
    assert "array[" == "array" + ['['];
  }

  lemma {:induction false} ListText(items: seq<Json>)
    ensures ShapeText(List(items)) == "array" + ['['] + Join(ListTexts(items), ',') + [']']
  {
    ItemsText(ListTexts(items));
  }

  /** The first character tells what kind of value a text was printed for. */
  lemma {:induction false} Heads(v: Json)
    ensures ShapeText(v) != ""
    ensures v.Object? ==> ShapeText(v)[0] == 'o'
    ensures v.List? ==> ShapeText(v)[0] == 'a'
    ensures IsScalar(v) ==> ShapeText(v) == ScalarName(v) && ScalarName(v)[0] in {'n', 'b', 'i', 'f', 's'}
  {
    match v
    case Object(fs) => ObjectText(fs); assert "object"[0] == 'o';
    case List(items) => ListText(items); assert "array"[0] == 'a';
    case _ =>
  }

  lemma {:induction false} PartIsToken(p: Part)
    requires ShapeKey(p.key) && Token(p.text, ';')
    ensures Token(Print(p), ';')
  {
    PlainScan(p.key, 0, ';');
    ScanConcat(p.key, ":", 0, ';');
    assert Scan(":", 0, ';') == Scan("", 0, ';') == 0;
    ScanConcat(p.key + ":", p.text, 0, ';');
  }

  lemma {:induction false} SortedPartFrom(fs: seq<Field>, i: nat) returns (j: nat)
    requires i < |fs|
    ensures j < |fs| && SortBy(Parts(fs), PKey)[i] == Part(fs[j].key, ShapeText(fs[j].value))
  {
    j := SortOrigin(Parts(fs), PKey, i);
  }

  lemma {:induction false} SortedPartsAreTokens(fs: seq<Field>)
    requires forall i | 0 <= i < |fs| :: ShapeKey(fs[i].key) && Closes(ShapeText(fs[i].value))
    ensures Tokens(Printed(SortBy(Parts(fs), PKey)), ';')
    ensures PrintedValues(SortBy(Parts(fs), PKey))
  {
    var ps := SortBy(Parts(fs), PKey);
    forall i | 0 <= i < |ps| ensures Token(Print(ps[i]), ';') && ShapeKey(ps[i].key) && exists v :: ps[i].text == ShapeText(v) {
      var j := SortedPartFrom(fs, i);
      PartIsToken(ps[i]);
    }
  }

  /** Printed structures: tokens that open with the word of their kind. */
  ghost predicate Structured(ts: seq<string>) {
    forall i | 0 <= i < |ts| :: Token(ts[i], ',') && ts[i][0] in {'o', 'a'}
  }

  lemma {:induction false} StructuredPrepend(t: string, ts: seq<string>)
    requires Structured(ts) && Token(t, ',') && t[0] in {'o', 'a'}
    ensures Structured([t] + ts)
  {
  }

  lemma {:induction false} StructTextsAreTokens(items: seq<Json>)
    requires forall i | 0 <= i < |items| :: Closes(ShapeText(items[i]))
    ensures Structured(StructTexts(items))
  {
    if items != [] {
      var t, rest := ShapeText(items[0]), StructTexts(items[1..]);
      StructTextsAreTokens(items[1..]);
      if IsScalar(items[0]) {
        assert [] + rest == rest;
      } else {
        Heads(items[0]);
        StructuredPrepend(t, rest);
      }
    }
  }

  lemma {:induction false} NameIsToken(v: Json)
    requires IsScalar(v)
    ensures Closes(ScalarName(v))
  {
    PlainScan(ScalarName(v), 0, ';');
    PlainScan(ScalarName(v), 0, ',');
  }

  lemma {:induction false} EmptyArrayIsToken()
    ensures Token("empty_array", ',')
  {
    PlainScan("empty_array", 0, ',');
  }

  /** Scalar type names: tokens told from printed structures by their first character. */
  ghost predicate Named(ts: seq<string>) {
    forall i | 0 <= i < |ts| :: Token(ts[i], ',') && ts[i][0] in {'n', 'b', 'i', 'f', 's'}
  }

  lemma {:induction false} NamesAreNamed(items: seq<Json>)
    ensures Named(SortedSet(ScalarNames(items)))
  {
    var names := SortedSet(ScalarNames(items));
    forall i | 0 <= i < |names| ensures Token(names[i], ',') && names[i][0] in {'n', 'b', 'i', 'f', 's'} {
      assert names[i] in ScalarNames(items);
      var j :| 0 <= j < |items| && IsScalar(items[j]) && ScalarName(items[j]) == names[i];
      NameIsToken(items[j]);
      Heads(items[j]);
    }
  }

  lemma {:induction false} SortedStructured(ts: seq<string>)
    requires Structured(ts)
    ensures Structured(SortBy(ts, Whole))
  {
    var texts := SortBy(ts, Whole);
    forall i | 0 <= i < |texts| ensures Token(texts[i], ',') && texts[i][0] in {'o', 'a'} {
      var j := SortOrigin(ts, Whole, i);
    }
  }

  /** What a nonempty list's texts are made of: names first, then printed structures. */
  lemma {:induction false} ListTextsFacts(items: seq<Json>)
    requires items != [] && forall i | 0 <= i < |items| :: Closes(ShapeText(items[i]))
    ensures Named(SortedSet(ScalarNames(items))) && Structured(SortBy(StructTexts(items), Whole))
    ensures |SortedSet(ScalarNames(items))| + |SortBy(StructTexts(items), Whole)| > 0
  {
    NamesAreNamed(items);
    StructTextsAreTokens(items);
    SortedStructured(StructTexts(items));
    if IsScalar(items[0]) {
      assert ScalarName(items[0]) in ScalarNames(items);
    } else {
      assert StructTexts(items) != [];
    }
  }

  lemma {:induction false} KindsAreTokens(a: seq<string>, x: seq<string>)
    requires Named(a) && Structured(x)
    ensures Tokens(a + x, ',')
  {
  }

  lemma {:induction false} ObjectIsToken(texts: seq<string>, t: string)
    requires Tokens(texts, ';') && t == "object" + ['{'] + Join(texts, ';') + ['}']
    ensures Closes(t)
  {
    JoinScan(texts, ';', ';');
    JoinScan(texts, ';', ',');
    WrappedIsToken("object", '{', Join(texts, ';'), '}', ';');
    WrappedIsToken("object", '{', Join(texts, ';'), '}', ',');
  }

  lemma {:induction false} ListTextsAreTokens(items: seq<Json>)
    requires forall i | 0 <= i < |items| :: Closes(ShapeText(items[i]))
    ensures Tokens(ListTexts(items), ',')
  {
    if items == [] {
      EmptyArrayIsToken();
    } else {
      ListTextsFacts(items);
      KindsAreTokens(SortedSet(ScalarNames(items)), SortBy(StructTexts(items), Whole));
    }
  }

  lemma {:induction false} ListIsToken(texts: seq<string>, t: string)
    requires Tokens(texts, ',') && t == "array" + ['['] + Join(texts, ',') + [']']
    ensures Closes(t)
  {
    JoinScan(texts, ',', ';');
    JoinScan(texts, ',', ',');
    WrappedIsToken("array", '[', Join(texts, ','), ']', ';');
    WrappedIsToken("array", '[', Join(texts, ','), ']', ',');
  }

  lemma {:induction false} ShapeTextIsToken(v: Json)
    requires KeysSatisfy(v, ShapeKey)
    ensures Closes(ShapeText(v))
    decreases v
  {
    match v
    case Object(fs) =>
      forall i | 0 <= i < |fs| ensures Closes(ShapeText(fs[i].value)) { ShapeTextIsToken(fs[i].value); }
      ObjectText(fs);
      SortedPartsAreTokens(fs);
      ObjectIsToken(Printed(SortBy(Parts(fs), PKey)), ShapeText(v));
    case List(items) =>
      forall i | 0 <= i < |items| ensures Closes(ShapeText(items[i])) { ShapeTextIsToken(items[i]); }
      ListText(items);
      ListTextsAreTokens(items);
      ListIsToken(ListTexts(items), ShapeText(v));
    case _ =>
      NameIsToken(v);
  }

  // ---- Objects: same text exactly when same keys with same shapes ----

  lemma {:induction false} FieldShapesHas(fs: seq<Field>, i: nat)
    requires DistinctKeys(fs) && i < |fs|
    ensures fs[i].key in FieldShapes(fs) && FieldShapes(fs)[fs[i].key] == ShapeOf(fs[i].value)
  {
    if i > 0 {
      FieldShapesHas(fs[1..], i - 1);
    } else {
      FieldShapesKeys(fs[1..]);
    }
  }

  lemma {:induction false} FieldShapesKeys(fs: seq<Field>)
    ensures forall k | k in FieldShapes(fs) :: exists i | 0 <= i < |fs| :: fs[i].key == k
  {
    if fs != [] {
      FieldShapesKeys(fs[1..]);
      forall k | k in FieldShapes(fs) ensures exists i | 0 <= i < |fs| :: fs[i].key == k {
        if k in FieldShapes(fs[1..]) {
          var i :| 0 <= i < |fs[1..]| && fs[1..][i].key == k;
          assert fs[i + 1].key == k;
        } else {
          assert fs[0].key == k;
        }
      }
    }
  }

  /** Text and shape tell the values of two objects apart alike. */
  ghost predicate ValuesAlike(fs: seq<Field>, gs: seq<Field>) {
    forall i, j | 0 <= i < |fs| && 0 <= j < |gs| ::
      ShapeText(fs[i].value) == ShapeText(gs[j].value) <==> ShapeOf(fs[i].value) == ShapeOf(gs[j].value)
  }

  lemma {:induction false} SamePartsSameShape(fs: seq<Field>, gs: seq<Field>, k: string)
    requires DistinctKeys(fs) && DistinctKeys(gs) && ValuesAlike(fs, gs)
    requires SortBy(Parts(fs), PKey) == SortBy(Parts(gs), PKey) && k in FieldShapes(fs)
    ensures k in FieldShapes(gs) && FieldShapes(gs)[k] == FieldShapes(fs)[k]
  {
    FieldShapesKeys(fs);
    var i :| 0 <= i < |fs| && fs[i].key == k;
    FieldShapesHas(fs, i);
    SameMultisetSameMembers(Parts(fs), Parts(gs), Parts(fs)[i]);
    var j :| 0 <= j < |Parts(gs)| && Parts(gs)[j] == Parts(fs)[i];
    FieldShapesHas(gs, j);
  }

  lemma {:induction false} SameShapeSamePart(fs: seq<Field>, gs: seq<Field>, i: nat)
    requires DistinctKeys(fs) && DistinctKeys(gs) && ValuesAlike(fs, gs)
    requires FieldShapes(fs) == FieldShapes(gs) && i < |fs|
    ensures Parts(fs)[i] in Parts(gs)
  {
    FieldShapesHas(fs, i);
    FieldShapesKeys(gs);
    var j :| 0 <= j < |gs| && gs[j].key == fs[i].key;
    FieldShapesHas(gs, j);
    assert Parts(gs)[j] == Parts(fs)[i];
  }

  lemma {:induction false} SameFieldShapes(fs: seq<Field>, gs: seq<Field>)
    requires DistinctKeys(fs) && DistinctKeys(gs) && ValuesAlike(fs, gs) && ValuesAlike(gs, fs)
    requires SortBy(Parts(fs), PKey) == SortBy(Parts(gs), PKey)
    ensures FieldShapes(fs) == FieldShapes(gs)
  {
    forall k ensures (k in FieldShapes(fs) <==> k in FieldShapes(gs))
        && (k in FieldShapes(fs) ==> FieldShapes(gs)[k] == FieldShapes(fs)[k]) {
      if k in FieldShapes(fs) {
        SamePartsSameShape(fs, gs, k);
      } else if k in FieldShapes(gs) {
        SamePartsSameShape(gs, fs, k);
      }
    }
  }

  lemma {:induction false} SamePartMembers(fs: seq<Field>, gs: seq<Field>, x: Part)
    requires DistinctKeys(fs) && DistinctKeys(gs) && ValuesAlike(fs, gs)
    requires FieldShapes(fs) == FieldShapes(gs) && x in Parts(fs)
    ensures x in Parts(gs)
  {
    var i :| 0 <= i < |Parts(fs)| && Parts(fs)[i] == x;
    SameShapeSamePart(fs, gs, i);
  }

  lemma {:induction false} PartsApart(fs: seq<Field>)
    requires DistinctKeys(fs)
    ensures KeysApart(Parts(fs), PKey)
  {
  }

  lemma {:induction false} SameMembersSameSort(a: seq<Part>, b: seq<Part>)
    requires KeysApart(a, PKey) && KeysApart(b, PKey) && forall x :: x in a <==> x in b
    ensures SortBy(a, PKey) == SortBy(b, PKey)
  {
    SameApartMultisets(a, b, PKey);
    forall x, y | x in SortBy(a, PKey) && y in SortBy(a, PKey) && PKey(x) == PKey(y) ensures x == y {
      SameMultisetSameMembers(a, SortBy(a, PKey), x);
      SameMultisetSameMembers(a, SortBy(a, PKey), y);
      SameKeySame(a, PKey, x, y);
    }
    SortedUnique(SortBy(a, PKey), SortBy(b, PKey), PKey);
  }

  lemma {:induction false} PartsIffShapes(fs: seq<Field>, gs: seq<Field>)
    requires DistinctKeys(fs) && DistinctKeys(gs) && ValuesAlike(fs, gs) && ValuesAlike(gs, fs)
    ensures SortBy(Parts(fs), PKey) == SortBy(Parts(gs), PKey) <==> FieldShapes(fs) == FieldShapes(gs)
  {
    if SortBy(Parts(fs), PKey) == SortBy(Parts(gs), PKey) {
      SameFieldShapes(fs, gs);
    } else if FieldShapes(fs) == FieldShapes(gs) {
      forall x ensures x in Parts(fs) <==> x in Parts(gs) {
        if x in Parts(fs) {
          SamePartMembers(fs, gs, x);
        } else if x in Parts(gs) {
          SamePartMembers(gs, fs, x);
        }
      }
      PartsApart(fs);
      PartsApart(gs);
      SameMembersSameSort(Parts(fs), Parts(gs));
    }
  }

  // ---- Where the key of a printed member ends ----

  predicate Opens(c: char) { c == '{' || c == '[' }

  /** A word without colon or opener, and then nothing or an opener. */
  predicate Worded(word: string, rest: string) {
    Free(word, {':', '{', '['}) && (rest == "" || Opens(rest[0]))
  }

  /** The word a printed value begins with, and what follows it. */
  function WordOf(v: Json): string { if v.Object? then "object" else if v.List? then "array" else ScalarName(v) }

  lemma {:induction false} WordIsPlain(v: Json)
    ensures Free(WordOf(v), {':', '{', '['})
  {
  }

  lemma {:induction false} OpenedWord(word: string, open: char, body: string, close: char) returns (rest: string)
    requires Opens(open)
    ensures word + [open] + body + [close] == word + rest && rest != "" && Opens(rest[0])
  {
    rest := [open] + body + [close];
  }

  lemma {:induction false} TextIsWorded(v: Json) returns (rest: string)
    ensures ShapeText(v) == WordOf(v) + rest && Worded(WordOf(v), rest)
  {
    WordIsPlain(v);
    match v
    case Object(fs) =>
      ObjectText(fs);
      rest := OpenedWord("object", '{', ObjectBody(fs), '}');
    case List(items) =>
      ListText(items);
      rest := OpenedWord("array", '[', Join(ListTexts(items), ','), ']');
    case _ =>
      rest := "";
      assert WordOf(v) + "" == WordOf(v);
  }

  /** The first opener ends the key and the word. */
  lemma {:induction false} FirstOpener(a: string, x: string, b: string, y: string)
    requires Free(a, {'{', '['}) && Free(b, {'{', '['}) && (x == "" || Opens(x[0])) && (y == "" || Opens(y[0]))
    requires a + x == b + y
    ensures a == b && x == y
  {
    var s := a + x;
    assert x != "" ==> s[|a|] == x[0];
    assert y != "" ==> (b + y)[|b|] == y[0];
    assert |a| == |b|;
    assert s[..|a|] == a && (b + y)[..|b|] == b && s[|a|..] == x && (b + y)[|b|..] == y;
  }

  /** The last colon before it ends the key: colons in a key do no harm. */
  lemma {:induction false} KeyEnds(k: string, word: string, x: string, l: string, other: string, y: string)
    requires ShapeKey(k) && ShapeKey(l) && Worded(word, x) && Worded(other, y)
    requires (k + [':'] + word) + x == (l + [':'] + other) + y
    ensures k == l && word == other && x == y
  {
    KeyAndWordFree(k, word);
    KeyAndWordFree(l, other);
    FirstOpener(k + [':'] + word, x, l + [':'] + other, y);
    SplitLast(k, ':', word, l, other);
  }

  lemma {:induction false} PrintedWord(p: Part, word: string, rest: string)
    requires p.text == word + rest
    ensures Print(p) == (p.key + [':'] + word) + rest
  {
  }

  lemma {:induction false} PrintInjective(k: string, v: Json, l: string, w: Json)
    requires ShapeKey(k) && ShapeKey(l) && Print(Part(k, ShapeText(v))) == Print(Part(l, ShapeText(w)))
    ensures k == l && ShapeText(v) == ShapeText(w)
  {
    var x := TextIsWorded(v);
    var y := TextIsWorded(w);
    PrintedWord(Part(k, ShapeText(v)), WordOf(v), x);
    PrintedWord(Part(l, ShapeText(w)), WordOf(w), y);
    KeyEnds(k, WordOf(v), x, l, WordOf(w), y);
  }

  lemma {:induction false} KeyAndWordFree(k: string, word: string)
    requires ShapeKey(k) && Free(word, {':', '{', '['})
    ensures Free(k + [':'] + word, {'{', '['})
  {
    var s := k + [':'] + word;
    forall i | 0 <= i < |s| ensures s[i] !in {'{', '['} {
      assert s[i] == if i < |k| then k[i] else if i == |k| then ':' else word[i - |k| - 1];
      assert i < |k| ==> k[i] !in BRACKETS;
    }
  }

  /** Parts of clean keys and printed values. */
  ghost predicate PrintedValues(ps: seq<Part>) {
    forall i | 0 <= i < |ps| :: ShapeKey(ps[i].key) && exists v :: ps[i].text == ShapeText(v)
  }

  lemma {:induction false} PrintedInjective(a: seq<Part>, b: seq<Part>)
    requires PrintedValues(a) && PrintedValues(b) && Printed(a) == Printed(b)
    ensures a == b
  {
    assert |a| == |b|;
    forall i | 0 <= i < |a| ensures a[i] == b[i] {
      assert Printed(a)[i] == Printed(b)[i];
      var v :| a[i].text == ShapeText(v);
      var w :| b[i].text == ShapeText(w);
      PrintInjective(a[i].key, v, b[i].key, w);
    }
  }

  lemma {:induction false} ObjectsIff(fs: seq<Field>, gs: seq<Field>)
    requires DistinctKeys(fs) && DistinctKeys(gs) && ValuesAlike(fs, gs) && ValuesAlike(gs, fs)
    requires forall i | 0 <= i < |fs| :: ShapeKey(fs[i].key) && Closes(ShapeText(fs[i].value))
    requires forall i | 0 <= i < |gs| :: ShapeKey(gs[i].key) && Closes(ShapeText(gs[i].value))
    ensures ShapeText(Object(fs)) == ShapeText(Object(gs)) <==> FieldShapes(fs) == FieldShapes(gs)
    ensures StructuralText(Object(fs)) == StructuralText(Object(gs)) <==> FieldShapes(fs) == FieldShapes(gs)
  {
    var a, b := SortBy(Parts(fs), PKey), SortBy(Parts(gs), PKey);
    PartsIffShapes(fs, gs);
    SortedPartsAreTokens(fs);
    SortedPartsAreTokens(gs);
    if ShapeText(Object(fs)) == ShapeText(Object(gs)) {
      ObjectText(fs);
      ObjectText(gs);
      SameWrapped("object", '{', ObjectBody(fs), ObjectBody(gs), '}');
      JoinInjective(Printed(a), Printed(b), ';');
      PrintedInjective(a, b);
    } else {
      ObjectText(fs);
      ObjectText(gs);
    }
    if StructuralText(Object(fs)) == StructuralText(Object(gs)) {
      ClosedInjective(Printed(a), Printed(b));
      PrintedInjective(a, b);
    }
  }

  lemma {:induction false} SameWrapped(word: string, open: char, x: string, y: string, close: char)
    requires word + [open] + x + [close] == word + [open] + y + [close]
    ensures x == y
  {
    var a := word + [open];
    assert (a + x + [close])[|a|..|a + x|] == x;
    assert (a + y + [close])[|a|..|a + y|] == y;
    assert |a + x| == |a + y|;
  }

  // ---- Lists: same text exactly when same scalar types and same structured shapes ----

  lemma {:induction false} MultisetTransfer<X, Y>(ta: seq<X>, ha: seq<Y>, tb: seq<X>, hb: seq<Y>)
    requires |ta| == |ha| && |tb| == |hb|
    requires forall i, j | 0 <= i < |ta| && 0 <= j < |tb| && ta[i] == tb[j] :: ha[i] == hb[j]
    requires multiset(ta) == multiset(tb)
    ensures multiset(ha) == multiset(hb)
    decreases |ta|
  {
    assert |multiset(ta)| == |multiset(tb)|;
    if ta != [] {
      SameMultisetSameMembers(ta, tb, ta[0]);
      var j :| 0 <= j < |tb| && tb[j] == ta[0];
      var tc, hc := tb[..j] + tb[j + 1..], hb[..j] + hb[j + 1..];
      RemoveAt(tb, j);
      RemoveAt(hb, j);
      MultisetOfTail(ta);
      MultisetOfTail(ha);
      MultisetTransfer(ta[1..], ha[1..], tc, hc);
      assert multiset(ha) == multiset(ha[1..]) + multiset{ha[0]};
    }
  }

  lemma {:induction false} RemoveAt<X>(s: seq<X>, j: nat)
    requires j < |s|
    ensures multiset(s) == multiset(s[..j] + s[j + 1..]) + multiset{s[j]}
  {
    assert s == s[..j] + ([s[j]] + s[j + 1..]);
  }

  /** The structured items of a list, in order. */
  function Structures(items: seq<Json>): seq<Json> {
    if items == [] then []
    else (if IsScalar(items[0]) then [] else [items[0]]) + Structures(items[1..])
  }

  lemma {:induction false} StructuresCount(items: seq<Json>)
    ensures |StructTexts(items)| == |Structures(items)| == |StructShapes(items)|
  {
    if items != [] {
      StructuresCount(items[1..]);
    }
  }

  lemma {:induction false} StructTextAt(items: seq<Json>, i: nat)
    requires i < |Structures(items)| == |StructTexts(items)|
    ensures StructTexts(items)[i] == ShapeText(Structures(items)[i]) && Structures(items)[i] in items
  {
    StructuresCount(items[1..]);
    if IsScalar(items[0]) {
      StructTextAt(items[1..], i);
    } else if i > 0 {
      StructTextAt(items[1..], i - 1);
    }
  }

  lemma {:induction false} StructShapeAt(items: seq<Json>, i: nat)
    requires i < |Structures(items)| == |StructShapes(items)|
    ensures StructShapes(items)[i] == ShapeOf(Structures(items)[i])
  {
    StructuresCount(items[1..]);
    if IsScalar(items[0]) {
      StructShapeAt(items[1..], i);
    } else if i > 0 {
      StructShapeAt(items[1..], i - 1);
    }
  }

  ghost predicate ItemsAlike(xs: seq<Json>, ys: seq<Json>) {
    forall x, y | x in xs && y in ys :: ShapeText(x) == ShapeText(y) <==> ShapeOf(x) == ShapeOf(y)
  }

  lemma {:induction false} StructuresAlike(xs: seq<Json>, ys: seq<Json>, i: nat, j: nat)
    requires ItemsAlike(xs, ys) && i < |StructTexts(xs)| && j < |StructTexts(ys)|
    requires |StructTexts(xs)| == |StructShapes(xs)| && |StructTexts(ys)| == |StructShapes(ys)|
    ensures StructTexts(xs)[i] == StructTexts(ys)[j] <==> StructShapes(xs)[i] == StructShapes(ys)[j]
  {
    StructuresCount(xs);
    StructuresCount(ys);
    StructTextAt(xs, i);
    StructTextAt(ys, j);
    StructShapeAt(xs, i);
    StructShapeAt(ys, j);
  }

  lemma {:induction false} StructMultisets(xs: seq<Json>, ys: seq<Json>)
    requires ItemsAlike(xs, ys)
    ensures multiset(StructTexts(xs)) == multiset(StructTexts(ys)) <==> multiset(StructShapes(xs)) == multiset(StructShapes(ys))
  {
    StructuresCount(xs);
    StructuresCount(ys);
    var ta, ha, tb, hb := StructTexts(xs), StructShapes(xs), StructTexts(ys), StructShapes(ys);
    forall i, j | 0 <= i < |ta| && 0 <= j < |tb| ensures ta[i] == tb[j] <==> ha[i] == hb[j] {
      StructuresAlike(xs, ys, i, j);
    }
    if multiset(ta) == multiset(tb) {
      MultisetTransfer(ta, ha, tb, hb);
    } else if multiset(ha) == multiset(hb) {
      MultisetTransfer(ha, ta, hb, tb);
    }
  }

  lemma {:induction false} SortedTextsIff(a: seq<string>, b: seq<string>)
    ensures SortBy(a, Whole) == SortBy(b, Whole) <==> multiset(a) == multiset(b)
  {
    if multiset(a) == multiset(b) {
      SortedUnique(SortBy(a, Whole), SortBy(b, Whole), Whole);
    }
  }

  /** Where two kinds of element are told apart by their first character, a
      concatenation of the kinds splits in one way. */
  lemma {:induction false} SplitKinds(a: seq<string>, x: seq<string>, b: seq<string>, y: seq<string>)
    requires Named(a) && Structured(x) && Named(b) && Structured(y)
    requires a + x == b + y
    ensures a == b && x == y
  {
    var s, t := a + x, b + y;
    assert forall i | 0 <= i < |a| :: s[i] == a[i];
    assert forall i | 0 <= i < |b| :: t[i] == b[i];
    assert x != [] ==> s[|a|] == x[0];
    assert y != [] ==> t[|b|] == y[0];
    assert |a| == |b|;
    assert s[..|a|] == a && t[..|b|] == b && s[|a|..] == x && t[|b|..] == y;
  }

  /** Names and structured shapes of two lists agree. */
  ghost predicate SameContents(xs: seq<Json>, ys: seq<Json>) {
    ScalarNames(xs) == ScalarNames(ys) && multiset(StructShapes(xs)) == multiset(StructShapes(ys))
  }

  lemma {:induction false} SortedSetsIff(a: set<string>, b: set<string>)
    ensures SortedSet(a) == SortedSet(b) <==> a == b
  {
    if SortedSet(a) == SortedSet(b) {
      assert a == set x | x in SortedSet(a);
      assert b == set x | x in SortedSet(b);
    }
  }

  lemma {:induction false} ListTextsIff(xs: seq<Json>, ys: seq<Json>)
    requires xs != [] && ys != [] && ItemsAlike(xs, ys)
    requires forall i | 0 <= i < |xs| :: Closes(ShapeText(xs[i]))
    requires forall i | 0 <= i < |ys| :: Closes(ShapeText(ys[i]))
    ensures ListTexts(xs) == ListTexts(ys) <==> SameContents(xs, ys)
  {
    var a, x := SortedSet(ScalarNames(xs)), SortBy(StructTexts(xs), Whole);
    var b, y := SortedSet(ScalarNames(ys)), SortBy(StructTexts(ys), Whole);
    ListTextsFacts(xs);
    ListTextsFacts(ys);
    StructMultisets(xs, ys);
    SortedTextsIff(StructTexts(xs), StructTexts(ys));
    SortedSetsIff(ScalarNames(xs), ScalarNames(ys));
    if a + x == b + y {
      SplitKinds(a, x, b, y);
    }
  }

  lemma {:induction false} ContentsNotEmpty(xs: seq<Json>)
    requires xs != []
    ensures !SameContents(xs, []) && !SameContents([], xs)
  {
    assert ScalarNames([]) == {} && StructShapes([]) == [];
    if IsScalar(xs[0]) {
      assert ScalarName(xs[0]) in ScalarNames(xs);
    } else {
      assert StructShapes(xs)[0] in multiset(StructShapes(xs));
    }
  }

  lemma {:induction false} KindsAreNotEmptyMark(a: seq<string>, x: seq<string>)
    requires Named(a) && Structured(x) && |a| + |x| > 0
    ensures a + x != ["empty_array"]
  {
    var first := (a + x)[0];
    assert first == if a != [] then a[0] else x[0];
    assert "empty_array"[0] == 'e';
  }

  lemma {:induction false} EmptyListApart(xs: seq<Json>)
    requires xs != [] && forall i | 0 <= i < |xs| :: Closes(ShapeText(xs[i]))
    ensures ListTexts(xs) != ["empty_array"]
  {
    ListTextsFacts(xs);
    KindsAreNotEmptyMark(SortedSet(ScalarNames(xs)), SortBy(StructTexts(xs), Whole));
  }

  lemma {:induction false} SameJoinedTexts(xs: seq<Json>, ys: seq<Json>)
    requires forall i | 0 <= i < |xs| :: Closes(ShapeText(xs[i]))
    requires forall i | 0 <= i < |ys| :: Closes(ShapeText(ys[i]))
    ensures ShapeText(List(xs)) == ShapeText(List(ys)) <==> ListTexts(xs) == ListTexts(ys)
  {
    var a, b := ListTexts(xs), ListTexts(ys);
    ListTextsAreTokens(xs);
    ListTextsAreTokens(ys);
    ListText(xs);
    ListText(ys);
    if ShapeText(List(xs)) == ShapeText(List(ys)) {
      SameWrapped("array", '[', Join(a, ','), Join(b, ','), ']');
      JoinInjective(a, b, ',');
    }
  }

  lemma {:induction false} ListsIff(xs: seq<Json>, ys: seq<Json>)
    requires ItemsAlike(xs, ys)
    requires forall i | 0 <= i < |xs| :: Closes(ShapeText(xs[i]))
    requires forall i | 0 <= i < |ys| :: Closes(ShapeText(ys[i]))
    ensures ShapeText(List(xs)) == ShapeText(List(ys)) <==> SameContents(xs, ys)
  {
    SameJoinedTexts(xs, ys);
    if xs != [] && ys != [] {
      ListTextsIff(xs, ys);
    } else if xs != [] {
      EmptyListApart(xs);
      ContentsNotEmpty(xs);
    } else if ys != [] {
      EmptyListApart(ys);
      ContentsNotEmpty(ys);
    }
  }

  // ---- The structural string is a complete invariant ----

  lemma {:induction false} TextIffShape(v: Json, w: Json)
    requires Valid(v) && Valid(w) && KeysSatisfy(v, ShapeKey) && KeysSatisfy(w, ShapeKey)
    ensures ShapeText(v) == ShapeText(w) <==> ShapeOf(v) == ShapeOf(w)
    decreases v, w
  {
    Heads(v);
    Heads(w);
    if v.Object? && w.Object? {
      FieldsAlike(v, w);
    } else if v.List? && w.List? {
      forall x, y | x in v.items && y in w.items ensures ShapeText(x) == ShapeText(y) <==> ShapeOf(x) == ShapeOf(y) {
        TextIffShape(x, y);
      }
      forall i | 0 <= i < |v.items| ensures Closes(ShapeText(v.items[i])) { ShapeTextIsToken(v.items[i]); }
      forall i | 0 <= i < |w.items| ensures Closes(ShapeText(w.items[i])) { ShapeTextIsToken(w.items[i]); }
      ListsIff(v.items, w.items);
    }
  }

  lemma {:induction false} FieldsAlike(v: Json, w: Json)
    requires v.Object? && w.Object?
    requires Valid(v) && Valid(w) && KeysSatisfy(v, ShapeKey) && KeysSatisfy(w, ShapeKey)
    ensures ShapeText(v) == ShapeText(w) <==> ShapeOf(v) == ShapeOf(w)
    ensures StructuralText(v) == StructuralText(w) <==> ShapeOf(v) == ShapeOf(w)
    decreases v, w, 0
  {
    var fs, gs := v.fields, w.fields;
    forall i, j | 0 <= i < |fs| && 0 <= j < |gs|
      ensures ShapeText(fs[i].value) == ShapeText(gs[j].value) <==> ShapeOf(fs[i].value) == ShapeOf(gs[j].value)
    {
      TextIffShape(fs[i].value, gs[j].value);
    }
    forall i | 0 <= i < |fs| ensures Closes(ShapeText(fs[i].value)) { ShapeTextIsToken(fs[i].value); }
    forall i | 0 <= i < |gs| ensures Closes(ShapeText(gs[i].value)) { ShapeTextIsToken(gs[i].value); }
    ObjectsIff(fs, gs);
  }

  /** Two object payloads whose keys hold no bracket and no semicolon have the same structural string exactly
      when they have the same shape. */
  lemma {:induction false} StructuralTextIffShape(v: Json, w: Json)
    requires v.Object? && w.Object?
    requires Valid(v) && Valid(w) && KeysSatisfy(v, ShapeKey) && KeysSatisfy(w, ShapeKey)
    ensures StructuralText(v) == StructuralText(w) <==> ShapeOf(v) == ShapeOf(w)
  {
    FieldsAlike(v, w);
  }

  lemma {:induction false} SortedPartsText(fs: seq<Field>)
    requires SortedBy(Parts(fs), PKey)
    ensures StructuralText(Object(fs)) == Ok(Closed(Printed(Parts(fs))))
  {
    SortOfSorted(Parts(fs), PKey);
  }

  lemma {:induction false} OneMemberText(f: Field)
    ensures StructuralText(Object([f])) == Ok(Print(Part(f.key, ShapeText(f.value))) + ";")
  {
    var fs, p := [f], Part(f.key, ShapeText(f.value));
    assert fs[1..] == [] && Parts(fs[1..]) == [] && Parts(fs) == [p];
    SortedPartsText(fs);
    assert [p][1..] == [] && Printed([p][1..]) == [] && Printed([p]) == [Print(p)];
    assert Closed([Print(p)][1..]) == "";
    assert Closed([Print(p)]) == Print(p) + ";";
  }

  /** `{"k": v}` for each kind of scalar, and for the empty list and object. */
  lemma {:induction false} TextOfOneField(k: string, v: Json)
    ensures var text := StructuralText(Object([Field(k, v)]));
      && (v.Null? ==> text == Ok(k + ":" + "null" + ";"))
      && (v.Bool? ==> text == Ok(k + ":" + "bool" + ";"))
      && (v.Int? ==> text == Ok(k + ":" + "int" + ";"))
      && (v.Float? ==> text == Ok(k + ":" + "float" + ";"))
      && (v.Str? ==> text == Ok(k + ":" + "string" + ";"))
      && (v == List([]) ==> text == Ok(k + ":" + "array[empty_array]" + ";"))
      && (v == Object([]) ==> text == Ok(k + ":" + "object{}" + ";"))
  {
    OneMemberText(Field(k, v));
    EmptyTexts();
    if IsScalar(v) { Heads(v); }
  }

  lemma {:induction false} EmptyTexts()
    ensures ShapeText(List([])) == "array[empty_array]" && ShapeText(Object([])) == "object{}"
  {
    ListText([]);
    assert ["empty_array"][1..] == [] && Join(["empty_array"], ',') == "empty_array" + "";
    ObjectText([]);
    assert ObjectBody([]) == "";
  }

  lemma {:induction false} TwoParts(f: Field, g: Field)
    ensures Parts([f, g]) == [Part(f.key, ShapeText(f.value)), Part(g.key, ShapeText(g.value))]
  {
    assert [f, g][1..] == [g] && [g][1..] == [] && Parts([]) == [];
  }

  lemma {:induction false} TwoClosed(s: string, t: string)
    ensures Closed([s, t]) == s + (";" + (t + ";"))
  {
    assert [s, t][1..] == [t] && [t][1..] == [] && Closed([]) == "";
    assert ";" + "" == ";";
  }

  lemma {:induction false} TwoPrinted(p: Part, q: Part)
    ensures Printed([p, q]) == [Print(p), Print(q)]
  {
    assert [p, q][1..] == [q] && [q][1..] == [] && Printed([]) == [];
  }

  lemma {:induction false} TwoMemberText(f: Field, g: Field)
    requires AtMost(f.key, g.key)
    ensures var s, t := Print(Part(f.key, ShapeText(f.value))), Print(Part(g.key, ShapeText(g.value)));
      StructuralText(Object([f, g])) == Ok(s + (";" + (t + ";")))
  {
    var p, q := Part(f.key, ShapeText(f.value)), Part(g.key, ShapeText(g.value));
    TwoParts(f, g);
    SortedPartsText([f, g]);
    TwoPrinted(p, q);
    TwoClosed(Print(p), Print(q));
  }

  /** A key spelled like a member and the key after it. */
  function MemberLikeKey(a: string, b: string): string { a + ":int" + ";" + b }

  lemma {:induction false} SameMemberText(a: string, b: string)
    ensures Print(Part(MemberLikeKey(a, b), "int")) + ";" == Print(Part(a, "int")) + (";" + (Print(Part(b, "int")) + ";"))
  {
    assert ":" + "int" == ":int";
    assert MemberLikeKey(a, b) + ":" + "int" + ";" == (a + ":" + "int") + (";" + ((b + ":" + "int") + ";"));
  }

  /** With a semicolon in a key, payloads of different shape have one string: for any two keys
      `a` and `b` in order, the one member `a:int;b` of an integer, and two members `a` and `b`. */
  lemma {:induction false} PunctuatedKeyCollides(a: string, b: string)
    requires AtMost(a, b)
    ensures var v, w := Object([Field(MemberLikeKey(a, b), Int(1))]), Object([Field(a, Int(1)), Field(b, Int(1))]);
      StructuralText(v) == StructuralText(w) && ShapeOf(v) != ShapeOf(w)
  {
    var fs, gs := [Field(MemberLikeKey(a, b), Int(1))], [Field(a, Int(1)), Field(b, Int(1))];
    OneMemberText(fs[0]);
    TwoMemberText(gs[0], gs[1]);
    SameMemberText(a, b);
    OtherKeyOtherShape(fs, gs);
  }

  lemma {:induction false} OtherKeyOtherShape(fs: seq<Field>, gs: seq<Field>)
    requires |fs| == 1 && forall i | 0 <= i < |gs| :: |gs[i].key| < |fs[0].key|
    ensures ShapeOf(Object(fs)) != ShapeOf(Object(gs))
  {
    FieldShapesHas(fs, 0);
    FieldShapesKeys(gs);
  }

  lemma {:induction false} Associate(a: seq<string>, b: seq<string>, c: seq<string>)
    ensures a + (b + c) == (a + b) + c
  {
  }

  lemma {:induction false} StructTextsStep(items: seq<Json>, k: nat, done: seq<string>)
    requires k < |items|
    ensures done + StructTexts(items[k..])
         == (if IsScalar(items[k]) then done else done + [ShapeText(items[k])]) + StructTexts(items[k + 1..])
  {
    var tail := items[k..];
    assert tail[0] == items[k] && tail[1..] == items[k + 1..];
    var head, rest := if IsScalar(tail[0]) then [] else [ShapeText(tail[0])], StructTexts(tail[1..]);
    assert StructTexts(tail) == head + rest;
    Associate(done, head, rest);
    assert done + [] == done;
  }

  lemma {:induction false} ResolvedText(v: Json, resolved: Ast)
    requires resolved == ExtractType(v)
    ensures resolved.Text? <==> IsScalar(v)
    ensures IsScalar(v) ==> resolved.s == ScalarName(v)
    ensures Serialize(resolved) == ShapeText(v)
  {
  }

  /** The list branch of the extraction as the source runs it: scalar types go
      into a set, printed structures onto a list. */
  method ExtractList(items: seq<Json>) returns (result: Ast)
    ensures result == ExtractType(List(items))
  {
    if items == [] {
      return AList(["empty_array"]);
    }
    var innerTypes, structures := CollectItems(items);
    result := AList(SortedSet(innerTypes) + SortBy(structures, Whole));
  }

  method CollectItems(items: seq<Json>) returns (innerTypes: set<string>, structures: seq<string>)
    ensures innerTypes == ScalarNames(items) && structures == StructTexts(items)
  {
    innerTypes, structures := {}, [];
    for k := 0 to |items|
      invariant Collected(items, k, innerTypes, structures)
    {
      var resolved := ExtractType(items[k]);
      CollectStep(items, k, innerTypes, structures, resolved);
      if resolved.Text? {
        innerTypes := innerTypes + {resolved.s};
      } else {
        var stringified := Serialize(resolved);
        structures := structures + [stringified];
      }
    }
    assert items[..|items|] == items && items[|items|..] == [];
  }

  /** The first `k` items are in the two collections. */
  ghost predicate Collected(items: seq<Json>, k: nat, names: set<string>, structures: seq<string>)
    requires k <= |items|
  {
    names == ScalarNames(items[..k]) && structures + StructTexts(items[k..]) == StructTexts(items)
  }

  /** What one item adds to the two collections. */
  lemma {:induction false} CollectStep(items: seq<Json>, k: nat, names: set<string>, structures: seq<string>, resolved: Ast)
    requires k < |items| && resolved == ExtractType(items[k]) && Collected(items, k, names, structures)
    ensures if resolved.Text? then Collected(items, k + 1, names + {resolved.s}, structures)
      else Collected(items, k + 1, names, structures + [Serialize(resolved)])
  {
    ResolvedText(items[k], resolved);
    NamesGrow(items, k);
    StructTextsStep(items, k, structures);
  }

  lemma {:induction false} NamesGrow(items: seq<Json>, k: nat)
    requires k < |items|
    ensures ScalarNames(items[..k + 1])
         == ScalarNames(items[..k]) + (if IsScalar(items[k]) then {ScalarName(items[k])} else {})
  {
    var a, b := items[..k], items[..k + 1];
    assert forall i | 0 <= i < k :: b[i] == a[i];
    assert b[k] == items[k];
  }
}
