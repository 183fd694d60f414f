/** A reader of compact JSON text, defined without the printer: reading what the normaliser
    prints gives the value back, so printing loses nothing, and its size is known. */
module ReadBack {
  import opened Texts
  import opened Paths
  import opened JsonText
  import opened Normalizer
  import J = Json

  // ---- Numerals ----

  predicate AllDigits(s: string) { forall i | 0 <= i < |s| :: IsDigit(s[i]) }

  function NumberOf(s: string): nat
    requires AllDigits(s)
  {
    if s == "" then 0 else 10 * NumberOf(s[..|s| - 1]) + (s[|s| - 1] as int - '0' as int)
  }

  lemma {:induction false} DecimalReads(n: nat)
    ensures NumberOf(Decimal(n)) == n
  {
    var s := Decimal(n);
    if n < 10 {
      assert s == [Digit(n)] && s[..0] == "";
    } else {
      DecimalReads(n / 10);
      assert s[..|s| - 1] == Decimal(n / 10) && s[|s| - 1] == Digit(n % 10);
    }
  }

  /** An optional minus and digits. */
  predicate IntText(s: string) {
    if s != "" && s[0] == '-' then |s| > 1 && AllDigits(s[1..]) else s != "" && AllDigits(s)
  }

  function IntOf(s: string): int
    requires IntText(s)
  {
    if s[0] == '-' then 0 - NumberOf(s[1..]) else NumberOf(s)
  }

  // ---- Strings ----

  function HexCode(c: char): Option<nat> {
    if '0' <= c <= '9' then Some(c as int - '0' as int)
    else if 'a' <= c <= 'f' then Some(c as int - 'a' as int + 10)
    else if 'A' <= c <= 'F' then Some(c as int - 'A' as int + 10)
    else None
  }

  /** The code that four hex digits write. */
  function FourCode(h: string): (n: Option<nat>)
    requires |h| == 4
    ensures n.Some? ==> n.value < 0x1_0000
  {
    var a, b, c, d := HexCode(h[0]), HexCode(h[1]), HexCode(h[2]), HexCode(h[3]);
    if a.Some? && b.Some? && c.Some? && d.Some? && a.value < 16 && b.value < 16 && c.value < 16 && d.value < 16
    then Some(a.value * 0x1000 + b.value * 0x100 + c.value * 0x10 + d.value)
    else None
  }

  function ShortCode(c: char): Option<char> {
    if c == 'n' then Some('\n') else if c == 'r' then Some('\r') else if c == 't' then Some('\t')
    else if c == 'b' then Some(8 as char) else if c == 'f' then Some(12 as char)
    else if c == '"' || c == '\\' || c == '/' then Some(c)
    else None
  }

  /** One character, and what follows it. */
  function ReadChar(s: string): (r: Option<(char, string)>)
    ensures r.Some? ==> |r.value.1| < |s|
  {
    if s == "" || s[0] == '"' then None
    else if s[0] != '\\' then Some((s[0], s[1..]))
    else if |s| < 2 then None
    else if s[1] != 'u' then (if ShortCode(s[1]).Some? then Some((ShortCode(s[1]).value, s[2..])) else None)
    else ReadHex(s)
  }

  /** A \u escape; beyond 16 bits two of them, a surrogate pair. */
  function ReadHex(s: string): (r: Option<(char, string)>)
    requires |s| >= 2
    ensures r.Some? ==> |r.value.1| < |s|
  {
    if |s| < 6 || FourCode(s[2..6]).None? then None
    else
      var n, t := FourCode(s[2..6]).value, s[6..];
      if n < 0xd800 || n >= 0xe000 then Some((n as char, t))
      else if n >= 0xdc00 || |t| < 6 || t[0] != '\\' || t[1] != 'u' || FourCode(t[2..6]).None? then None
      else
        var m := FourCode(t[2..6]).value;
        if 0xdc00 <= m < 0xe000 then Some(((0x1_0000 + (n - 0xd800) * 0x400 + (m - 0xdc00)) as char, t[6..])) else None
  }

  /** The characters up to the closing quote, and what follows it. */
  function ReadChars(s: string): (r: Option<(string, string)>)
    ensures r.Some? ==> |r.value.1| < |s|
    decreases |s|
  {
    if s != "" && s[0] == '"' then Some(("", s[1..]))
    else if ReadChar(s).None? then None
    else
      var (c, rest) := ReadChar(s).value;
      var more := ReadChars(rest);
      if more.Some? then Some(([c] + more.value.0, more.value.1)) else None
  }

  // ---- Values ----

  const STOPS: set<char> := {',', ']', '}'}

  /** A word or number: the text up to the next comma or closing bracket. */
  function Bare(s: string): (w: string)
    ensures |w| <= |s|
  {
    if s == "" || s[0] in STOPS then "" else [s[0]] + Bare(s[1..])
  }

  function BareValue(w: string): J.Json {
    if w == "null" then J.Null
    else if w == "true" then J.Bool(true)
    else if w == "false" then J.Bool(false)
    else if IntText(w) then J.Int(IntOf(w))
    else J.Float(w)
  }

  function ReadValue(s: string): (r: Option<(J.Json, string)>)
    ensures r.Some? ==> |r.value.1| < |s|
    decreases |s|, 2
  {
    if s == "" then None
    else if s[0] == '"' then
      var r := ReadChars(s[1..]);
      if r.Some? then Some((J.Str(r.value.0), r.value.1)) else None
    else if s[0] == '[' then
      if |s| > 1 && s[1] == ']' then Some((J.List([]), s[2..]))
      else
        var r := ReadItems(s[1..]);
        if r.Some? then Some((J.List(r.value.0), r.value.1)) else None
    else if s[0] == '{' then
      if |s| > 1 && s[1] == '}' then Some((J.Object([]), s[2..]))
      else
        var r := ReadFields(s[1..]);
        if r.Some? then Some((J.Object(r.value.0), r.value.1)) else None
    else if Bare(s) == "" then None
    else Some((BareValue(Bare(s)), s[|Bare(s)|..]))
  }

  function ReadItems(s: string): (r: Option<(seq<J.Json>, string)>)
    ensures r.Some? ==> |r.value.1| < |s|
    decreases |s|, 3
  {
    var first := ReadValue(s);
    if first.None? || first.value.1 == "" then None
    else
      var (x, rest) := first.value;
      if rest[0] == ']' then Some(([x], rest[1..]))
      else if rest[0] != ',' then None
      else
        var more := ReadItems(rest[1..]);
        if more.Some? then Some(([x] + more.value.0, more.value.1)) else None
  }

  function ReadField(s: string): (r: Option<(J.Field, string)>)
    ensures r.Some? ==> |r.value.1| < |s|
    decreases |s|, 0
  {
    if s == "" || s[0] != '"' then None
    else
      var key := ReadChars(s[1..]);
      if key.None? || key.value.1 == "" || key.value.1[0] != ':' then None
      else
        var value := ReadValue(key.value.1[1..]);
        if value.Some? then Some((J.Field(key.value.0, value.value.0), value.value.1)) else None
  }

  function ReadFields(s: string): (r: Option<(seq<J.Field>, string)>)
    ensures r.Some? ==> |r.value.1| < |s|
    decreases |s|, 1
  {
    var first := ReadField(s);
    if first.None? || first.value.1 == "" then None
    else
      var (f, rest) := first.value;
      if rest[0] == '}' then Some(([f], rest[1..]))
      else if rest[0] != ',' then None
      else
        var more := ReadFields(rest[1..]);
        if more.Some? then Some(([f] + more.value.0, more.value.1)) else None
  }

  // ---- Strings read back ----

  lemma {:induction false} HexReads(n: nat)
    requires n < 16
    ensures HexCode(HexDigit(n)) == Some(n)
  {
  }

  lemma {:induction false} FourReads(n: nat)
    requires n < 0x1_0000
    ensures |Hex4(n)| == 4 && FourCode(Hex4(n)) == Some(n)
  {
    FourDigits(n / 0x1000, n / 0x100 % 0x10, n / 0x10 % 0x10, n % 0x10);
    DigitsAddUp(n);
  }

  lemma {:induction false} FourDigits(a: nat, b: nat, c: nat, d: nat)
    requires a < 16 && b < 16 && c < 16 && d < 16
    ensures FourCode([HexDigit(a), HexDigit(b), HexDigit(c), HexDigit(d)]) == Some(a * 0x1000 + b * 0x100 + c * 0x10 + d)
  {
    HexReads(a);
    HexReads(b);
    HexReads(c);
    HexReads(d);
  }

  lemma {:induction false} DigitsAddUp(n: nat)
    requires n < 0x1_0000
    ensures n / 0x1000 * 0x1000 + n / 0x100 % 0x10 * 0x100 + n / 0x10 % 0x10 * 0x10 + n % 0x10 == n
  {
    var m := n / 0x10;
    var l := m / 0x10;
    assert n / 0x100 == l && n / 0x1000 == l / 0x10;
  }

  lemma {:induction false} HexSlices(h: string, t: string)
    requires |h| == 4
    ensures var s := UnitText(Hex(h)) + t;
      |s| >= 6 && s[0] == '\\' && s[1] == 'u' && s[2..6] == h && s[6..] == t
  {
  }

  lemma {:induction false} HexUnitReads(n: nat, rest: string)
    requires n < 0xd800 || 0xe000 <= n < 0x1_0000
    ensures ReadChar(UnitText(Hex(Hex4(n))) + rest) == Some((n as char, rest))
  {
    FourReads(n);
    HexSlices(Hex4(n), rest);
  }

  lemma {:induction false} PairReads(m: nat, rest: string)
    requires m < 0x10_0000
    ensures ReadChar(UnitText(Hex(Hex4(0xd800 + m / 0x400))) + (UnitText(Hex(Hex4(0xdc00 + m % 0x400))) + rest)) ==
      Some(((0x1_0000 + m) as char, rest))
  {
    var a, b := 0xd800 + m / 0x400, 0xdc00 + m % 0x400;
    FourReads(a);
    FourReads(b);
    HexSlices(Hex4(b), rest);
    HexSlices(Hex4(a), UnitText(Hex(Hex4(b))) + rest);
  }

  lemma {:induction false} ShortReads(c: char, rest: string)
    requires ShortCode(c).Some?
    ensures ReadChar(UnitText(Short(c)) + rest) == Some((ShortCode(c).value, rest))
  {
    var s := UnitText(Short(c)) + rest;
    assert s[0] == '\\' && s[1] == c && s[2..] == rest;
  }

  /** Every character reads back from what it is printed as. */
  lemma {:induction false} CharReads(c: char, rest: string)
    ensures ReadChar(UnitsText(CharUnits(c)) + rest) == Some((c, rest))
  {
    var us, n := CharUnits(c), c as int;
    if n >= 0x1_0000 {
      var m := n - 0x1_0000;
      TwoUnits(Hex(Hex4(0xd800 + m / 0x400)), Hex(Hex4(0xdc00 + m % 0x400)), rest);
      PairReads(m, rest);
    } else {
      OneUnit(us[0]);
      OneUnitReads(c, rest);
    }
  }

  lemma {:induction false} OneUnit(u: Unit)
    ensures UnitsText([u]) == UnitText(u)
  {
    assert [u][1..] == [];
  }

  lemma {:induction false} TwoUnits(u: Unit, w: Unit, rest: string)
    ensures UnitsText([u, w]) + rest == UnitText(u) + (UnitText(w) + rest)
  {
    OneUnit(w);
    assert [u, w][1..] == [w];
  }

  lemma {:induction false} OneUnitReads(c: char, rest: string)
    requires c as int < 0x1_0000
    ensures |CharUnits(c)| == 1 && ReadChar(UnitText(CharUnits(c)[0]) + rest) == Some((c, rest))
  {
    var u := CharUnits(c)[0];
    if u.Short? { ShortReads(u.c, rest); }
    else if u.Hex? { HexUnitReads(c as int, rest); }
    else { assert ([c] + rest)[1..] == rest; }
  }

  lemma {:induction false} UnitsAppend(a: seq<Unit>, b: seq<Unit>)
    ensures UnitsText(a + b) == UnitsText(a) + UnitsText(b)
  {
    if a == [] {
      assert a + b == b;
    } else {
      assert (a + b)[0] == a[0] && (a + b)[1..] == a[1..] + b;
      UnitsAppend(a[1..], b);
    }
  }

  lemma {:induction false} PrintedCharNotQuote(c: char, rest: string)
    ensures var s := UnitsText(CharUnits(c)) + rest; s != "" && s[0] != '"'
  {
    CharReads(c, rest);
  }

  lemma {:induction false} ReadCharsStep(t: string, c: char, more: string, s: string, rest: string)
    requires t != "" && t[0] != '"' && ReadChar(t) == Some((c, more)) && ReadChars(more) == Some((s, rest))
    ensures ReadChars(t) == Some(([c] + s, rest))
  {
  }

  lemma {:induction false} StringSplits(s: string, end: string)
    requires s != ""
    ensures UnitsText(StringUnits(s)) + end == UnitsText(CharUnits(s[0])) + (UnitsText(StringUnits(s[1..])) + end)
  {
    UnitsAppend(CharUnits(s[0]), StringUnits(s[1..]));
    Concat3(UnitsText(CharUnits(s[0])), UnitsText(StringUnits(s[1..])), end);
  }

  lemma {:induction false} EmptyReads(rest: string)
    ensures UnitsText(StringUnits("")) + ("\"" + rest) == "\"" + rest && ReadChars("\"" + rest) == Some(("", rest))
  {
    assert ("\"" + rest)[1..] == rest;
  }

  /** A printed string reads back, up to its closing quote. */
  lemma {:induction false} StringReads(s: string, rest: string)
    ensures ReadChars(UnitsText(StringUnits(s)) + ("\"" + rest)) == Some((s, rest))
  {
    if s == "" {
      EmptyReads(rest);
    } else {
      var end := "\"" + rest;
      var more := UnitsText(StringUnits(s[1..])) + end;
      StringSplits(s, end);
      CharReads(s[0], more);
      PrintedCharNotQuote(s[0], more);
      StringReads(s[1..], rest);
      ReadCharsStep(UnitsText(CharUnits(s[0])) + more, s[0], more, s[1..], rest);
      assert [s[0]] + s[1..] == s;
    }
  }

  // ---- Values read back ----

  /** A float's text is no integer's: it has a point, an exponent or a word. */
  ghost predicate FloatForm(lit: string) { FloatText(lit) && !IntText(lit) }

  ghost predicate FloatsMarked(v: J.Json) {
    match v
    case Float(lit) => FloatForm(lit)
    case List(items) => forall i | 0 <= i < |items| :: FloatsMarked(items[i])
    case Object(fs) => forall i | 0 <= i < |fs| :: FloatsMarked(fs[i].value)
    case _ => true
  }

  predicate Stopped(rest: string) { rest == "" || rest[0] in STOPS }

  /** Texts that begin and run like a word or number. */
  predicate BareText(w: string) { w != "" && w[0] !in {'"', '[', '{'} && Free(w, STOPS) }

  lemma {:induction false} BareReads(w: string, rest: string)
    requires Free(w, STOPS) && Stopped(rest)
    ensures Bare(w + rest) == w
  {
    if w == "" {
      assert "" + rest == rest;
    } else {
      assert (w + rest)[0] == w[0] && (w + rest)[1..] == w[1..] + rest && w[0] !in STOPS;
      BareReads(w[1..], rest);
      assert [w[0]] + w[1..] == w;
    }
  }

  lemma {:induction false} BareValueReads(w: string, rest: string)
    requires BareText(w) && Stopped(rest)
    ensures ReadValue(w + rest) == Some((BareValue(w), rest))
  {
    BareReads(w, rest);
    assert (w + rest)[0] == w[0] && (w + rest)[|w|..] == rest;
  }

  lemma {:induction false} NumberCharsAreBare(w: string)
    requires NumberChars(w) && w != ""
    ensures BareText(w)
  {
    forall i | 0 <= i < |w| ensures w[i] !in STOPS { assert NumberChar(w[i]); }
    assert NumberChar(w[0]);
  }

  lemma {:induction false} WordsAreBare()
    ensures BareText("null") && BareText("true") && BareText("false")
    ensures BareText("NaN") && BareText("Infinity") && BareText("-Infinity")
    ensures !IntText("NaN") && !IntText("Infinity") && !IntText("-Infinity")
  {
    assert "NaN"[0] == 'N' && "Infinity"[0] == 'I' && "-Infinity"[1..][0] == 'I';
  }

  lemma {:induction false} DecimalIsInt(n: nat)
    ensures IntText(Decimal(n)) && IntOf(Decimal(n)) == n && NumberChars(Decimal(n))
  {
    DecimalReads(n);
    assert IsDigit(Decimal(n)[0]);
  }

  lemma {:induction false} MinusIsInt(s: string)
    requires s != "" && AllDigits(s)
    ensures IntText("-" + s) && IntOf("-" + s) == 0 - NumberOf(s) && NumberChars("-" + s)
  {
    assert ("-" + s)[1..] == s;
  }

  lemma {:induction false} IntTextReads(i: int)
    ensures IntText(Dump(J.Int(i))) && IntOf(Dump(J.Int(i))) == i && NumberChars(Dump(J.Int(i)))
  {
    if i < 0 {
      DecimalIsInt(-i);
      DecimalReads(-i);
      MinusIsInt(Decimal(-i));
    } else {
      DecimalIsInt(i);
      assert "" + Decimal(i) == Decimal(i);
    }
  }

  lemma {:induction false} FloatIsBare(lit: string)
    requires FloatForm(lit)
    ensures BareText(lit) && BareValue(lit) == J.Float(lit)
  {
    WordsAreBare();
    if IsNumber(lit) {
      var n :| GoodNumber(n) && NumberText(n) == lit;
      NumberTextChars(n);
      NumberCharsAreBare(lit);
      assert NumberChar(lit[0]) && !NumberChar("null"[0]) && !NumberChar("true"[0]) && !NumberChar("false"[0]);
    } else {
      assert lit[0] in {'N', 'I', '-'};
    }
  }

  lemma {:induction false} IntIsBare(i: int)
    ensures BareText(Dump(J.Int(i))) && BareValue(Dump(J.Int(i))) == J.Int(i)
  {
    var w := Dump(J.Int(i));
    IntTextReads(i);
    NumberCharsAreBare(w);
    assert NumberChar(w[0]) && !NumberChar("null"[0]) && !NumberChar("true"[0]) && !NumberChar("false"[0]);
  }

  lemma {:induction false} ScalarReads(v: J.Json, rest: string)
    requires J.IsScalar(v) && FloatsMarked(v) && Stopped(rest)
    ensures ReadValue(Dump(v) + rest) == Some((v, rest))
  {
    WordsAreBare();
    match v
    case Str(s) =>
      StringReads(s, rest);
      QuotedReads(s, rest);
    case Int(i) => IntIsBare(i); BareValueReads(Dump(v), rest);
    case Float(lit) => FloatIsBare(lit); BareValueReads(lit, rest);
    case _ => BareValueReads(Dump(v), rest);
  }

  lemma {:induction false} QuotedReads(s: string, rest: string)
    ensures var t := Quoted(StringUnits(s)) + rest;
      t != "" && t[0] == '"' && ReadChars(t[1..]) == Some((s, rest))
  {
    StringReads(s, rest);
    assert (Quoted(StringUnits(s)) + rest)[1..] == UnitsText(StringUnits(s)) + ("\"" + rest);
  }

  /** No printed value begins with a closing bracket. */
  lemma {:induction false} DumpBegins(v: J.Json)
    requires FloatsMarked(v)
    ensures Dump(v) != "" && Dump(v)[0] !in STOPS
  {
    WordsAreBare();
    match v
    case Int(i) => IntIsBare(i);
    case Float(lit) => FloatIsBare(lit);
    case _ =>
  }

  /** Whatever is printed reads back, up to a comma, a closing bracket or the end. */
  lemma {:induction false} ValueReads(v: J.Json, rest: string)
    requires FloatsMarked(v) && Stopped(rest)
    ensures ReadValue(Dump(v) + rest) == Some((v, rest))
    decreases v, 1
  {
    match v
    case List(items) =>
      if items == [] {
        assert (Dump(v) + rest)[2..] == rest;
      } else {
        ItemsRead(items, rest);
        OpenedList(items, rest);
      }
    case Object(fs) =>
      if fs == [] {
        assert (Dump(v) + rest)[2..] == rest;
      } else {
        FieldsRead(fs, rest);
        OpenedObject(fs, rest);
      }
    case _ => ScalarReads(v, rest);
  }

  lemma {:induction false} OpenedList(items: seq<J.Json>, rest: string)
    requires items != [] && FloatsMarked(items[0])
    requires ReadItems(DumpItems(items) + ("]" + rest)) == Some((items, rest))
    ensures ReadValue(Dump(J.List(items)) + rest) == Some((J.List(items), rest))
  {
    var t := DumpItems(items) + ("]" + rest);
    DumpBegins(items[0]);
    ItemsSplit(items, "]" + rest);
    Enclosed("[", DumpItems(items), "]", rest);
    ListOpens(t, items, rest);
  }

  lemma {:induction false} Enclosed(open: string, body: string, close: string, rest: string)
    ensures open + body + close + rest == open + (body + (close + rest))
  {
  }

  lemma {:induction false} ListOpens(t: string, items: seq<J.Json>, rest: string)
    requires t != "" && t[0] != ']' && ReadItems(t) == Some((items, rest))
    ensures ReadValue("[" + t) == Some((J.List(items), rest))
  {
    assert ("[" + t)[1..] == t;
  }

  lemma {:induction false} ObjectOpens(t: string, fs: seq<J.Field>, rest: string)
    requires t != "" && t[0] != '}' && ReadFields(t) == Some((fs, rest))
    ensures ReadValue("{" + t) == Some((J.Object(fs), rest))
  {
    assert ("{" + t)[1..] == t;
  }

  lemma {:induction false} OpenedObject(fs: seq<J.Field>, rest: string)
    requires fs != [] && ReadFields(DumpFields(fs) + ("}" + rest)) == Some((fs, rest))
    ensures ReadValue(Dump(J.Object(fs)) + rest) == Some((J.Object(fs), rest))
  {
    var t := DumpFields(fs) + ("}" + rest);
    FieldsSplit(fs, "}" + rest);
    Enclosed("{", DumpFields(fs), "}", rest);
    assert DumpField(fs[0])[0] == '"';
    ObjectOpens(t, fs, rest);
  }

  lemma {:induction false} LastItem(t: string, x: J.Json, rest: string)
    requires ReadValue(t) == Some((x, "]" + rest))
    ensures ReadItems(t) == Some(([x], rest))
  {
    assert ("]" + rest)[1..] == rest;
  }

  lemma {:induction false} NextItem(t: string, x: J.Json, u: string, more: seq<J.Json>, rest: string)
    requires ReadValue(t) == Some((x, "," + u)) && ReadItems(u) == Some((more, rest))
    ensures ReadItems(t) == Some(([x] + more, rest))
  {
    assert ("," + u)[1..] == u;
  }

  lemma {:induction false} ItemsSplit(items: seq<J.Json>, end: string)
    requires items != []
    ensures DumpItems(items) + end ==
      if |items| == 1 then Dump(items[0]) + end else Dump(items[0]) + ("," + (DumpItems(items[1..]) + end))
  {
    if |items| == 1 {
      assert Dump(items[0]) + "" == Dump(items[0]);
    } else {
      Concat3(Dump(items[0]), "," + DumpItems(items[1..]), end);
      Concat3(",", DumpItems(items[1..]), end);
    }
  }

  lemma {:induction false} SingleReads(x: J.Json, rest: string)
    requires ReadValue(Dump(x) + ("]" + rest)) == Some((x, "]" + rest))
    ensures ReadItems(DumpItems([x]) + ("]" + rest)) == Some(([x], rest))
  {
    ItemsSplit([x], "]" + rest);
    LastItem(Dump(x) + ("]" + rest), x, rest);
  }

  lemma {:induction false} FirstReads(x: J.Json, more: seq<J.Json>, u: string, rest: string)
    requires more != [] && u == DumpItems(more) + ("]" + rest)
    requires ReadValue(Dump(x) + ("," + u)) == Some((x, "," + u)) && ReadItems(u) == Some((more, rest))
    ensures ReadItems(DumpItems([x] + more) + ("]" + rest)) == Some(([x] + more, rest))
  {
    assert ([x] + more)[0] == x && ([x] + more)[1..] == more;
    ItemsSplit([x] + more, "]" + rest);
    NextItem(Dump(x) + ("," + u), x, u, more, rest);
  }

  lemma {:induction false} ItemsRead(items: seq<J.Json>, rest: string)
    requires items != [] && forall i | 0 <= i < |items| :: FloatsMarked(items[i])
    ensures ReadItems(DumpItems(items) + ("]" + rest)) == Some((items, rest))
    decreases items, 0
  {
    var x, more := items[0], items[1..];
    if |items| == 1 {
      ValueReads(x, "]" + rest);
      SingleReads(x, rest);
      assert items == [x];
    } else {
      var u := DumpItems(more) + ("]" + rest);
      ValueReads(x, "," + u);
      ItemsRead(more, rest);
      FirstReads(x, more, u, rest);
      assert items == [x] + more;
    }
  }

  function DumpField(f: J.Field): string { Quoted(StringUnits(f.key)) + ":" + Dump(f.value) }

  lemma {:induction false} FieldReads(f: J.Field, rest: string)
    requires ReadValue(Dump(f.value) + rest) == Some((f.value, rest))
    ensures ReadField(DumpField(f) + rest) == Some((f, rest))
  {
    var after := ":" + (Dump(f.value) + rest);
    QuotedReads(f.key, after);
    MemberSplits(Quoted(StringUnits(f.key)), Dump(f.value), rest);
    FieldStep(Quoted(StringUnits(f.key)) + after, f, Dump(f.value) + rest, rest);
  }

  lemma {:induction false} MemberSplits(key: string, value: string, rest: string)
    ensures key + ":" + value + rest == key + (":" + (value + rest))
  {
  }

  lemma {:induction false} FieldStep(t: string, f: J.Field, u: string, rest: string)
    requires t != "" && t[0] == '"' && ReadChars(t[1..]) == Some((f.key, ":" + u)) && ReadValue(u) == Some((f.value, rest))
    ensures ReadField(t) == Some((f, rest))
  {
    assert (":" + u)[1..] == u;
  }

  lemma {:induction false} LastField(t: string, f: J.Field, rest: string)
    requires ReadField(t) == Some((f, "}" + rest))
    ensures ReadFields(t) == Some(([f], rest))
  {
    assert ("}" + rest)[1..] == rest;
  }

  lemma {:induction false} NextField(t: string, f: J.Field, u: string, more: seq<J.Field>, rest: string)
    requires ReadField(t) == Some((f, "," + u)) && ReadFields(u) == Some((more, rest))
    ensures ReadFields(t) == Some(([f] + more, rest))
  {
    assert ("," + u)[1..] == u;
  }

  lemma {:induction false} FieldsSplit(fs: seq<J.Field>, end: string)
    requires fs != []
    ensures DumpFields(fs) + end ==
      if |fs| == 1 then DumpField(fs[0]) + end else DumpField(fs[0]) + ("," + (DumpFields(fs[1..]) + end))
  {
    if |fs| == 1 {
      assert DumpField(fs[0]) + "" == DumpField(fs[0]);
    } else {
      Concat3(DumpField(fs[0]), "," + DumpFields(fs[1..]), end);
      Concat3(",", DumpFields(fs[1..]), end);
    }
  }

  lemma {:induction false} FieldsRead(fs: seq<J.Field>, rest: string)
    requires fs != [] && forall i | 0 <= i < |fs| :: FloatsMarked(fs[i].value)
    ensures ReadFields(DumpFields(fs) + ("}" + rest)) == Some((fs, rest))
    decreases fs, 0
  {
    var f, more, end := fs[0], fs[1..], "}" + rest;
    FieldsSplit(fs, end);
    assert fs == [f] + more;
    var tail := if |fs| == 1 then end else "," + (DumpFields(more) + end);
    ValueReads(f.value, tail);
    FieldReads(f, tail);
    if |fs| == 1 {
      assert fs == [f];
      LastField(DumpField(f) + end, f, rest);
    } else {
      FieldsRead(more, rest);
      NextField(DumpField(f) + tail, f, DumpFields(more) + end, more, rest);
    }
  }

  /** Reading the whole printed text gives the value back, and so no two values print alike. */
  lemma {:induction false} DumpLosesNothing(v: J.Json, w: J.Json)
    requires FloatsMarked(v) && FloatsMarked(w)
    ensures ReadValue(Dump(v)) == Some((v, "")) && (Dump(v) == Dump(w) ==> v == w)
  {
    ValueReads(v, "");
    ValueReads(w, "");
    assert Dump(v) + "" == Dump(v) && Dump(w) + "" == Dump(w);
  }

  // ---- The size of a text ----

  /** How many characters one character of a string takes. */
  function CharSize(c: char): nat {
    if c in {'"', '\\', '\n', '\r', '\t'} || c == 8 as char || c == 12 as char then 2
    else if ' ' <= c <= '~' then 1
    else if c as int < 0x1_0000 then 6
    else 12
  }

  function CharsSize(s: string): nat { if s == "" then 0 else CharSize(s[0]) + CharsSize(s[1..]) }

  /** The number of characters of the compact text: two for the quotes or brackets, one for
      each comma and colon, and what is inside. */
  function SizeOf(v: J.Json): nat
    decreases v, 1
  {
    match v
    case Null => 4
    case Bool(b) => if b then 4 else 5
    case Int(i) => if i < 0 then 1 + |Decimal(-i)| else |Decimal(i)|
    case Float(lit) => |lit|
    case Str(s) => 2 + CharsSize(s)
    case List(items) => 2 + ItemsSize(items)
    case Object(fs) => 2 + FieldsSize(fs)
  }

  function ItemsSize(items: seq<J.Json>): nat
    decreases items, 0
  {
    if items == [] then 0 else SizeOf(items[0]) + (if |items| > 1 then 1 else 0) + ItemsSize(items[1..])
  }

  function FieldsSize(fs: seq<J.Field>): nat
    decreases fs, 0
  {
    if fs == [] then 0
    else 2 + CharsSize(fs[0].key) + 1 + SizeOf(fs[0].value) + (if |fs| > 1 then 1 else 0) + FieldsSize(fs[1..])
  }

  lemma {:induction false} CharPrintsSized(c: char)
    ensures |UnitsText(CharUnits(c))| == CharSize(c)
    ensures ' ' <= c <= '~' && c != '"' && c != '\\' ==> UnitsText(CharUnits(c)) == [c]
  {
    var us := CharUnits(c);
    if |us| == 2 {
      TwoUnits(us[0], us[1], "");
      assert UnitsText(us) + "" == UnitsText(us);
    } else {
      OneUnit(us[0]);
    }
  }

  lemma {:induction false} StringPrintsSized(s: string)
    ensures |UnitsText(StringUnits(s))| == CharsSize(s)
  {
    if s != "" {
      CharPrintsSized(s[0]);
      UnitsAppend(CharUnits(s[0]), StringUnits(s[1..]));
      StringPrintsSized(s[1..]);
    }
  }

  /** The size that is compared with the cap. */
  lemma {:induction false} DumpSize(v: J.Json)
    ensures |Dump(v)| == SizeOf(v)
    decreases v, 1
  {
    match v
    case Str(s) => StringPrintsSized(s);
    case List(items) => ItemsPrintSized(items);
    case Object(fs) => FieldsPrintSized(fs);
    case _ =>
  }

  lemma {:induction false} ItemsPrintSized(items: seq<J.Json>)
    ensures |DumpItems(items)| == ItemsSize(items)
    decreases items, 0
  {
    if items != [] {
      DumpSize(items[0]);
      ItemsPrintSized(items[1..]);
    }
  }

  lemma {:induction false} FieldsPrintSized(fs: seq<J.Field>)
    ensures |DumpFields(fs)| == FieldsSize(fs)
    decreases fs, 0
  {
    if fs != [] {
      StringPrintsSized(fs[0].key);
      DumpSize(fs[0].value);
      FieldsPrintSized(fs[1..]);
    }
  }

  // ---- The size decides ----

  function Weight(f: J.Field): nat { 2 + CharsSize(f.key) + 1 + SizeOf(f.value) }

  function Weights(fs: seq<J.Field>): nat { if fs == [] then 0 else Weight(fs[0]) + Weights(fs[1..]) }

  lemma {:induction false} FieldsWeigh(fs: seq<J.Field>)
    ensures FieldsSize(fs) == Weights(fs) + (if fs == [] then 0 else |fs| - 1)
  {
    if fs != [] { FieldsWeigh(fs[1..]); }
  }

  lemma {:induction false} InsertWeighs(f: J.Field, fs: seq<J.Field>)
    requires SortedBy(fs, J.KeyOf)
    ensures Weights(InsertBy(f, fs, J.KeyOf)) == Weight(f) + Weights(fs)
  {
    if fs == [] {
      assert [f][1..] == [];
    } else if AtMost(f.key, fs[0].key) {
      assert ([f] + fs)[1..] == fs;
    } else {
      InsertWeighs(f, fs[1..]);
      var rest := InsertBy(f, fs[1..], J.KeyOf);
      assert ([fs[0]] + rest)[1..] == rest;
    }
  }

  lemma {:induction false} SortWeighs(fs: seq<J.Field>)
    ensures Weights(SortBy(fs, J.KeyOf)) == Weights(fs)
  {
    if fs != [] {
      SortWeighs(fs[1..]);
      InsertWeighs(fs[0], SortBy(fs[1..], J.KeyOf));
    }
  }

  /** Sorting keys does not change the size. */
  lemma {:induction false} SortKeepsSize(v: J.Json)
    ensures SizeOf(SortKeys(v)) == SizeOf(v)
    decreases v, 1
  {
    match v
    case List(items) => SortItemsKeepSize(items);
    case Object(fs) =>
      SortFieldsKeepSize(fs);
      SortWeighs(SortFields(fs));
      FieldsWeigh(SortBy(SortFields(fs), J.KeyOf));
      FieldsWeigh(fs);
    case _ =>
  }

  lemma {:induction false} SortItemsKeepSize(items: seq<J.Json>)
    ensures ItemsSize(SortItems(items)) == ItemsSize(items)
    decreases items, 0
  {
    if items != [] {
      SortKeepsSize(items[0]);
      SortItemsKeepSize(items[1..]);
    }
  }

  lemma {:induction false} SortFieldsKeepSize(fs: seq<J.Field>)
    ensures Weights(SortFields(fs)) == Weights(fs)
    decreases fs, 0
  {
    if fs != [] {
      SortKeepsSize(fs[0].value);
      SortFieldsKeepSize(fs[1..]);
    }
  }

  /** An object or array is kept whole, keys sorted, when its compact text has at most as many
      characters as the cap, and is otherwise replaced by the marker of that number. */
  lemma {:induction false} SizeDecides(body: J.Json, max: Option<int>, byDefault: int, loads: string -> Option<J.Json>)
    requires FloatsPrint(body) && Parses(loads) && !J.IsScalar(body)
    ensures Normalize(body, max, byDefault, loads) ==
      if SizeOf(body) <= Cap(max, byDefault) then SortKeys(body) else Marker(SizeOf(body))
  {
    ContainersNeverPartial(body, max, byDefault, loads);
    DumpSize(SortKeys(body));
    SortKeepsSize(body);
  }

  /** No cap and the cap 0 are the default cap, any other is itself. */
  lemma {:induction false} CapsMean(body: J.Json, cap: int, byDefault: int, loads: string -> Option<J.Json>)
    ensures Normalize(body, None, byDefault, loads) == Normalize(body, Some(0), byDefault, loads)
    ensures byDefault != 0 ==> Normalize(body, None, byDefault, loads) == Normalize(body, Some(byDefault), cap, loads)
    ensures cap != 0 ==> Normalize(body, Some(cap), byDefault, loads) == Normalize(body, None, cap, loads)
  {
  }

  /** A negative cap is below every size, and cuts characters off the end. */
  lemma {:induction false} NegativeCapCutsTheEnd(loads: string -> Option<J.Json>)
    requires Parses(loads)
    ensures loads("12").Some? && Normalize(J.Int(123), Some(-1), 0, loads) == loads("12").value
  {
    NumbersCanBeCut(loads);
    DecimalOfThree();
    assert "123"[..2] == "12";
  }
}
