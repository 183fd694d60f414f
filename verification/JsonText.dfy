/** JSON texts as `json.loads` accepts them (the grammar of RFC 8259, with the words
    NaN, Infinity and -Infinity), as trees of their tokens; and why cutting a text of
    an object or array short never leaves a text. */
module JsonText {
  import opened Texts

  // ---- The grammar ----

  /** A piece of a string: a plain character, a two-character escape or a \u escape. */
  datatype Unit = Plain(c: char) | Short(c: char) | Hex(h: string)

  datatype Number = Number(negative: bool, whole: string, fraction: string, exponent: string)

  datatype Tree =
    | Word(word: string)
    | Num(number: Number)
    | Text(units: seq<Unit>)
    | Array(open: string, elements: seq<Element>)
    | Object(open: string, members: seq<Member>)

  /** A value between the white space around it. */
  datatype Element = Element(before: string, value: Tree, after: string)

  datatype Member = Member(beforeKey: string, key: seq<Unit>, afterKey: string, element: Element)

  const WORDS: set<string> := {"null", "true", "false", "NaN", "Infinity", "-Infinity"}
  const SPACE: set<char> := {' ', '\t', '\n', '\r'}
  const SHORT_ESCAPES: set<char> := {'"', '\\', '/', 'b', 'f', 'n', 'r', 't'}
  const HEX_DIGITS: set<char> := {'0', '1', '2', '3', '4', '5', '6', '7', '8', '9', 'a', 'b', 'c', 'd', 'e', 'f', 'A', 'B', 'C', 'D', 'E', 'F'}

  predicate AllOf(s: string, cs: set<char>) { forall i | 0 <= i < |s| :: s[i] in cs }

  predicate Spaces(s: string) { AllOf(s, SPACE) }

  predicate Digits(s: string) { s != "" && forall i | 0 <= i < |s| :: IsDigit(s[i]) }

  predicate GoodUnit(u: Unit) {
    match u
    case Plain(c) => c != '"' && c != '\\' && c >= ' '
    case Short(c) => c in SHORT_ESCAPES
    case Hex(h) => |h| == 4 && AllOf(h, HEX_DIGITS)
  }

  predicate GoodUnits(us: seq<Unit>) { forall i | 0 <= i < |us| :: GoodUnit(us[i]) }

  predicate GoodNumber(n: Number) {
    && Digits(n.whole) && (n.whole[0] == '0' ==> |n.whole| == 1)
    && (n.fraction != "" ==> n.fraction[0] == '.' && Digits(n.fraction[1..]))
    && (n.exponent != "" ==>
          && n.exponent[0] in {'e', 'E'} && |n.exponent| > 1
          && Digits(if n.exponent[1] in {'+', '-'} then n.exponent[2..] else n.exponent[1..]))
  }

  ghost predicate Good(t: Tree) {
    match t
    case Word(w) => w in WORDS
    case Num(n) => GoodNumber(n)
    case Text(us) => GoodUnits(us)
    case Array(open, es) => Spaces(open) && forall i | 0 <= i < |es| :: GoodElement(es[i])
    case Object(open, ms) => Spaces(open) && forall i | 0 <= i < |ms| :: GoodMember(ms[i])
  }

  ghost predicate GoodElement(e: Element) { Spaces(e.before) && Good(e.value) && Spaces(e.after) }

  ghost predicate GoodMember(m: Member) {
    Spaces(m.beforeKey) && GoodUnits(m.key) && Spaces(m.afterKey) && GoodElement(m.element)
  }

  // ---- The text of a tree ----

  function UnitText(u: Unit): string {
    match u
    case Plain(c) => [c]
    case Short(c) => ['\\', c]
    case Hex(h) => "\\u" + h
  }

  function UnitsText(us: seq<Unit>): string {
    if us == [] then "" else UnitText(us[0]) + UnitsText(us[1..])
  }

  function Quoted(us: seq<Unit>): string { "\"" + UnitsText(us) + "\"" }

  function NumberText(n: Number): string {
    (if n.negative then "-" else "") + n.whole + n.fraction + n.exponent
  }

  function TextOf(t: Tree): string
    decreases t
  {
    match t
    case Word(w) => w
    case Num(n) => NumberText(n)
    case Text(us) => Quoted(us)
    case Array(open, es) => "[" + (if es == [] then open else ElementsText(es)) + "]"
    case Object(open, ms) => "{" + (if ms == [] then open else MembersText(ms)) + "}"
  }

  function ElementText(e: Element): string
    decreases e
  {
    e.before + TextOf(e.value) + e.after
  }

  function ElementsText(es: seq<Element>): string
    decreases es
  {
    if es == [] then "" else ElementText(es[0]) + (if |es| == 1 then "" else "," + ElementsText(es[1..]))
  }

  function MemberText(m: Member): string
    decreases m
  {
    m.beforeKey + Quoted(m.key) + m.afterKey + ":" + ElementText(m.element)
  }

  function MembersText(ms: seq<Member>): string
    decreases ms
  {
    if ms == [] then "" else MemberText(ms[0]) + (if |ms| == 1 then "" else "," + MembersText(ms[1..]))
  }

  /** A text `json.loads` accepts. */
  ghost predicate IsJson(s: string) { exists e :: GoodElement(e) && ElementText(e) == s }

  ghost predicate IsNumber(s: string) { exists n :: GoodNumber(n) && NumberText(n) == s }

  // ---- Scanning brackets and quotes ----

  datatype Mode = Outside | Inside | Escaped

  /** How many brackets are open, and whether the scan is inside a string. */
  datatype Scan = Scan(depth: int, mode: Mode)

  function Next(s: Scan, c: char): Scan {
    match s.mode
    case Outside =>
      if c == '"' then s.(mode := Inside)
      else if c == '[' || c == '{' then s.(depth := s.depth + 1)
      else if c == ']' || c == '}' then s.(depth := s.depth - 1)
      else s
    case Inside => if c == '"' then s.(mode := Outside) else if c == '\\' then s.(mode := Escaped) else s
    case Escaped => s.(mode := Inside)
  }

  function Scanned(s: Scan, text: string): Scan
    decreases |text|
  {
    if text == "" then s else Scanned(Next(s, text[0]), text[1..])
  }

  lemma {:induction false} ScannedAppend(s: Scan, a: string, b: string)
    ensures Scanned(s, a + b) == Scanned(Scanned(s, a), b)
    decreases |a|
  {
    if a == "" {
      assert a + b == b;
    } else {
      assert (a + b)[0] == a[0] && (a + b)[1..] == a[1..] + b;
      ScannedAppend(Next(s, a[0]), a[1..], b);
    }
  }

  /** From depth `d` outside a string the text never goes below `d` and ends there. */
  ghost predicate Balanced(text: string, d: int) {
    && Scanned(Scan(d, Outside), text) == Scan(d, Outside)
    && forall k | 0 <= k <= |text| :: Scanned(Scan(d, Outside), text[..k]).depth >= d
  }

  lemma {:induction false} BalancedAppend(a: string, b: string, d: int)
    requires Balanced(a, d) && Balanced(b, d)
    ensures Balanced(a + b, d)
  {
    var s := Scan(d, Outside);
    ScannedAppend(s, a, b);
    forall k | 0 <= k <= |a + b| ensures Scanned(s, (a + b)[..k]).depth >= d {
      if k <= |a| {
        assert (a + b)[..k] == a[..k];
      } else {
        assert (a + b)[..k] == a + b[..k - |a|];
        ScannedAppend(s, a, b[..k - |a|]);
      }
    }
  }

  /** Characters that neither open, close nor quote anything. */
  const NEUTRAL_BAR: set<char> := {'"', '[', ']', '{', '}'}

  lemma {:induction false} NeutralScan(text: string, d: int)
    requires Free(text, NEUTRAL_BAR)
    ensures Scanned(Scan(d, Outside), text) == Scan(d, Outside)
  {
    if text != "" { NeutralScan(text[1..], d); }
  }

  lemma {:induction false} NeutralBalanced(text: string, d: int)
    requires Free(text, NEUTRAL_BAR)
    ensures Balanced(text, d)
  {
    NeutralScan(text, d);
    forall k | 0 <= k <= |text| ensures Scanned(Scan(d, Outside), text[..k]).depth >= d {
      NeutralScan(text[..k], d);
    }
  }

  lemma {:induction false} DepthInside(text: string, s: Scan)
    requires s.mode != Outside && forall k | 0 <= k < |text| :: Scanned(s, text[..k]).mode != Outside
    ensures Scanned(s, text).depth == s.depth
    decreases |text|
  {
    if text != "" {
      var n := |text| - 1;
      assert text == text[..n] + [text[n]];
      forall k | 0 <= k < n ensures Scanned(s, text[..n][..k]).mode != Outside { assert text[..n][..k] == text[..k]; }
      DepthInside(text[..n], s);
      ScannedAppend(s, text[..n], [text[n]]);
      ScannedOne(Scanned(s, text[..n]), text[n]);
    }
  }

  lemma {:induction false} ScannedOne(s: Scan, c: char)
    ensures Scanned(s, [c]) == Next(s, c)
  {
    assert [c][1..] == "";
  }

  /** A piece of a string is read inside the string. */
  ghost predicate StaysInside(text: string, d: int) {
    && Scanned(Scan(d, Inside), text) == Scan(d, Inside)
    && forall k | 0 <= k <= |text| :: Scanned(Scan(d, Inside), text[..k]).mode != Outside
  }

  lemma {:induction false} StaysAppend(a: string, b: string, d: int)
    requires StaysInside(a, d) && StaysInside(b, d)
    ensures StaysInside(a + b, d)
  {
    var s := Scan(d, Inside);
    ScannedAppend(s, a, b);
    forall k | 0 <= k <= |a + b| ensures Scanned(s, (a + b)[..k]).mode != Outside {
      if k <= |a| {
        assert (a + b)[..k] == a[..k];
      } else {
        assert (a + b)[..k] == a + b[..k - |a|];
        ScannedAppend(s, a, b[..k - |a|]);
      }
    }
  }

  lemma {:induction false} PlainStays(c: char, d: int)
    requires c != '"' && c != '\\'
    ensures StaysInside([c], d)
  {
    ScannedOne(Scan(d, Inside), c);
    forall k | 0 <= k <= 1 ensures Scanned(Scan(d, Inside), [c][..k]).mode != Outside {
      assert k == 1 ==> [c][..k] == [c];
    }
  }

  lemma {:induction false} ShortStays(c: char, d: int)
    ensures StaysInside(['\\', c], d)
  {
    var t := ['\\', c];
    ScannedOne(Scan(d, Inside), '\\');
    ScannedOne(Scan(d, Escaped), c);
    ScannedAppend(Scan(d, Inside), ['\\'], [c]);
    assert t == ['\\'] + [c];
    forall k | 0 <= k <= 2 ensures Scanned(Scan(d, Inside), t[..k]).mode != Outside {
      assert k == 1 ==> t[..k] == ['\\'];
      assert k == 2 ==> t[..k] == t;
    }
  }

  lemma {:induction false} PlainsStay(s: string, d: int)
    requires forall i | 0 <= i < |s| :: s[i] != '"' && s[i] != '\\'
    ensures StaysInside(s, d)
  {
    if s == "" {
      assert forall k | 0 <= k <= 0 :: s[..k] == "";
    } else {
      PlainStays(s[0], d);
      PlainsStay(s[1..], d);
      StaysAppend([s[0]], s[1..], d);
      assert s == [s[0]] + s[1..];
    }
  }

  lemma {:induction false} UnitStays(u: Unit, d: int)
    requires GoodUnit(u)
    ensures StaysInside(UnitText(u), d)
  {
    match u
    case Plain(c) => PlainStays(c, d);
    case Short(c) => ShortStays(c, d);
    case Hex(h) =>
      ShortStays('u', d);
      PlainsStay(h, d);
      StaysAppend(['\\', 'u'], h, d);
      assert "\\u" == ['\\', 'u'];
  }

  lemma {:induction false} UnitsStay(us: seq<Unit>, d: int)
    requires GoodUnits(us)
    ensures StaysInside(UnitsText(us), d)
  {
    if us == [] {
      PlainsStay("", d);
    } else {
      UnitStays(us[0], d);
      UnitsStay(us[1..], d);
      StaysAppend(UnitText(us[0]), UnitsText(us[1..]), d);
    }
  }

  /** A string is closed by its last character and no sooner. */
  lemma {:induction false} QuotedScan(us: seq<Unit>, d: int, k: nat)
    requires GoodUnits(us) && k <= |Quoted(us)|
    ensures var s := Scanned(Scan(d, Outside), Quoted(us)[..k]);
      s.depth == d && (s.mode == Outside <==> k == 0 || k == |Quoted(us)|)
  {
    var body, q := UnitsText(us), Quoted(us);
    UnitsStay(us, d);
    if k > 0 {
      var part := body[..if k - 1 < |body| then k - 1 else |body|];
      ScannedOne(Scan(d, Outside), '"');
      ScannedAppend(Scan(d, Outside), "\"", part);
      forall j | 0 <= j < |part| ensures Scanned(Scan(d, Inside), part[..j]).mode != Outside { assert part[..j] == body[..j]; }
      DepthInside(part, Scan(d, Inside));
      if k < |q| {
        assert q[..k] == "\"" + part;
      } else {
        assert part == body && q[..k] == ("\"" + body) + "\"";
        ScannedAppend(Scan(d, Outside), "\"" + body, "\"");
        ScannedOne(Scan(d, Inside), '"');
      }
    }
  }

  lemma {:induction false} QuotedBalanced(us: seq<Unit>, d: int)
    requires GoodUnits(us)
    ensures Balanced(Quoted(us), d)
  {
    var q := Quoted(us);
    QuotedScan(us, d, |q|);
    assert q[..|q|] == q;
    forall k | 0 <= k <= |q| ensures Scanned(Scan(d, Outside), q[..k]).depth >= d { QuotedScan(us, d, k); }
  }

  /** Between brackets the scan is deeper, at every proper prefix but the empty one. */
  lemma {:induction false} BracketScan(left: char, inner: string, right: char, d: int, k: nat)
    requires left in {'[', '{'} && right in {']', '}'} && Balanced(inner, d + 1) && k <= |inner| + 2
    ensures var s := Scanned(Scan(d, Outside), ([left] + inner + [right])[..k]);
      && (0 < k < |inner| + 2 ==> s.depth > d)
      && (k == |inner| + 2 ==> s == Scan(d, Outside))
  {
    var text := [left] + inner + [right];
    if k > 0 {
      var part := inner[..if k - 1 < |inner| then k - 1 else |inner|];
      ScannedOne(Scan(d, Outside), left);
      ScannedAppend(Scan(d, Outside), [left], part);
      if k < |inner| + 2 {
        assert text[..k] == [left] + part;
      } else {
        assert part == inner && text[..k] == ([left] + inner) + [right];
        ScannedAppend(Scan(d, Outside), [left] + inner, [right]);
        ScannedOne(Scan(d + 1, Outside), right);
      }
    }
  }

  lemma {:induction false} BracketBalanced(left: char, inner: string, right: char, d: int)
    requires left in {'[', '{'} && right in {']', '}'} && Balanced(inner, d + 1)
    ensures Balanced([left] + inner + [right], d)
  {
    var text := [left] + inner + [right];
    BracketScan(left, inner, right, d, |text|);
    assert text[..|text|] == text;
    forall k | 0 <= k <= |text| ensures Scanned(Scan(d, Outside), text[..k]).depth >= d {
      BracketScan(left, inner, right, d, k);
    }
  }

  // ---- Every text is balanced ----

  lemma {:induction false} SpacesBalanced(s: string, d: int)
    requires Spaces(s)
    ensures Balanced(s, d)
  {
    NeutralBalanced(s, d);
  }

  predicate NumberChar(c: char) { IsDigit(c) || c in {'-', '+', '.', 'e', 'E'} }

  predicate NumberChars(s: string) { forall i | 0 <= i < |s| :: NumberChar(s[i]) }

  lemma {:induction false} ExponentChars(e: string)
    requires e != "" && e[0] in {'e', 'E'} && |e| > 1
    requires Digits(if e[1] in {'+', '-'} then e[2..] else e[1..])
    ensures NumberChars(e)
  {
    var from := if e[1] in {'+', '-'} then 2 else 1;
    forall i | 0 <= i < |e| ensures NumberChar(e[i]) {
      assert i >= from ==> e[i] == e[from..][i - from];
    }
  }

  lemma {:induction false} FractionChars(f: string)
    requires f != "" && f[0] == '.' && Digits(f[1..])
    ensures NumberChars(f)
  {
    forall i | 0 <= i < |f| ensures NumberChar(f[i]) { assert i > 0 ==> f[i] == f[1..][i - 1]; }
  }

  lemma {:induction false} CharsAppend(a: string, b: string)
    requires NumberChars(a) && NumberChars(b)
    ensures NumberChars(a + b)
  {
  }

  lemma {:induction false} NumberTextChars(n: Number)
    requires GoodNumber(n)
    ensures NumberChars(NumberText(n)) && NumberText(n) != ""
    ensures IsDigit(NumberText(n)[0]) || (NumberText(n)[0] == '-' && |NumberText(n)| > 1 && IsDigit(NumberText(n)[1]))
  {
    var sign := if n.negative then "-" else "";
    if n.fraction != "" { FractionChars(n.fraction); }
    if n.exponent != "" { ExponentChars(n.exponent); }
    CharsAppend(sign, n.whole);
    CharsAppend(sign + n.whole, n.fraction);
    CharsAppend(sign + n.whole + n.fraction, n.exponent);
  }

  lemma {:induction false} NumberBalanced(n: Number, d: int)
    requires GoodNumber(n)
    ensures Balanced(NumberText(n), d)
  {
    NumberTextChars(n);
    NeutralBalanced(NumberText(n), d);
  }

  lemma {:induction false} WordBalanced(w: string, d: int)
    requires w in WORDS
    ensures Balanced(w, d)
  {
    WordIsBare(w);
    NeutralBalanced(w, d);
  }

  lemma {:induction false} WordIsBare(w: string)
    requires w in WORDS
    ensures Free(w, NEUTRAL_BAR + BARE_BAR)
  {
    var bar := NEUTRAL_BAR + BARE_BAR;
    assert Free("null", bar);
    assert Free("true", bar);
    assert Free("false", bar);
    assert Free("NaN", bar);
    assert Free("Infinity", bar);
    assert Free("-Infinity", bar);
  }

  lemma {:induction false} TreeBalanced(t: Tree, d: int)
    requires Good(t)
    ensures Balanced(TextOf(t), d)
    decreases t
  {
    match t
    case Word(w) => WordBalanced(w, d);
    case Num(n) => NumberBalanced(n, d);
    case Text(us) => QuotedBalanced(us, d);
    case Array(open, es) =>
      if es == [] { SpacesBalanced(open, d + 1); } else { ElementsBalanced(es, d + 1); }
      BracketBalanced('[', if es == [] then open else ElementsText(es), ']', d);
    case Object(open, ms) =>
      if ms == [] { SpacesBalanced(open, d + 1); } else { MembersBalanced(ms, d + 1); }
      BracketBalanced('{', if ms == [] then open else MembersText(ms), '}', d);
  }

  lemma {:induction false} ElementBalanced(e: Element, d: int)
    requires GoodElement(e)
    ensures Balanced(ElementText(e), d)
    decreases e
  {
    SpacesBalanced(e.before, d);
    TreeBalanced(e.value, d);
    SpacesBalanced(e.after, d);
    BalancedAppend(e.before, TextOf(e.value), d);
    BalancedAppend(e.before + TextOf(e.value), e.after, d);
  }

  lemma {:induction false} ElementsBalanced(es: seq<Element>, d: int)
    requires forall i | 0 <= i < |es| :: GoodElement(es[i])
    ensures Balanced(ElementsText(es), d)
    decreases es
  {
    NeutralBalanced("", d);
    if es != [] {
      ElementBalanced(es[0], d);
      if |es| > 1 {
        NeutralBalanced(",", d);
        ElementsBalanced(es[1..], d);
        BalancedAppend(",", ElementsText(es[1..]), d);
      }
      BalancedAppend(ElementText(es[0]), if |es| == 1 then "" else "," + ElementsText(es[1..]), d);
    }
  }

  lemma {:induction false} MemberBalanced(m: Member, d: int)
    requires GoodMember(m)
    ensures Balanced(MemberText(m), d)
    decreases m
  {
    SpacesBalanced(m.beforeKey, d);
    QuotedBalanced(m.key, d);
    SpacesBalanced(m.afterKey, d);
    NeutralBalanced(":", d);
    ElementBalanced(m.element, d);
    BalancedAppend(m.beforeKey, Quoted(m.key), d);
    BalancedAppend(m.beforeKey + Quoted(m.key), m.afterKey, d);
    BalancedAppend(m.beforeKey + Quoted(m.key) + m.afterKey, ":", d);
    BalancedAppend(m.beforeKey + Quoted(m.key) + m.afterKey + ":", ElementText(m.element), d);
  }

  lemma {:induction false} MembersBalanced(ms: seq<Member>, d: int)
    requires forall i | 0 <= i < |ms| :: GoodMember(ms[i])
    ensures Balanced(MembersText(ms), d)
    decreases ms
  {
    NeutralBalanced("", d);
    if ms != [] {
      MemberBalanced(ms[0], d);
      if |ms| > 1 {
        NeutralBalanced(",", d);
        MembersBalanced(ms[1..], d);
        BalancedAppend(",", MembersText(ms[1..]), d);
      }
      BalancedAppend(MemberText(ms[0]), if |ms| == 1 then "" else "," + MembersText(ms[1..]), d);
    }
  }

  lemma {:induction false} JsonEndsOutside(s: string)
    requires IsJson(s)
    ensures s != "" && Scanned(Scan(0, Outside), s) == Scan(0, Outside)
  {
    var e :| GoodElement(e) && ElementText(e) == s;
    ElementBalanced(e, 0);
    TreeTextNonempty(e.value);
  }

  lemma {:induction false} TreeTextNonempty(t: Tree)
    requires Good(t)
    ensures TextOf(t) != ""
  {
    if t.Num? { NumberTextChars(t.number); }
  }

  lemma {:induction false} TreeIsJson(t: Tree)
    requires Good(t)
    ensures IsJson(TextOf(t))
  {
    var e := Element("", t, "");
    assert GoodElement(e);
    assert "" + TextOf(t) + "" == TextOf(t);
    assert ElementText(e) == TextOf(t);
  }

  // ---- Cutting a text short ----

  /** No proper prefix of the text of an object or array is a JSON text. */
  lemma {:induction false} CutContainerIsNotJson(t: Tree, k: nat)
    requires Good(t) && (t.Array? || t.Object?) && k < |TextOf(t)|
    ensures !IsJson(TextOf(t)[..k])
  {
    if t.Array? {
      var inner := if t.elements == [] then t.open else ElementsText(t.elements);
      if t.elements == [] { SpacesBalanced(t.open, 1); } else { ElementsBalanced(t.elements, 1); }
      BracketScan('[', inner, ']', 0, k);
    } else {
      var inner := if t.members == [] then t.open else MembersText(t.members);
      if t.members == [] { SpacesBalanced(t.open, 1); } else { MembersBalanced(t.members, 1); }
      BracketScan('{', inner, '}', 0, k);
    }
    if IsJson(TextOf(t)[..k]) { JsonEndsOutside(TextOf(t)[..k]); }
  }

  /** Nor is a proper prefix of a string's. */
  lemma {:induction false} CutStringIsNotJson(us: seq<Unit>, k: nat)
    requires GoodUnits(us) && k < |Quoted(us)|
    ensures !IsJson(Quoted(us)[..k])
  {
    QuotedScan(us, 0, k);
    if IsJson(Quoted(us)[..k]) { JsonEndsOutside(Quoted(us)[..k]); }
  }

  const BARE_BAR: set<char> := {'"', '[', '{', ' ', '\t', '\n', '\r'}

  lemma {:induction false} EndsOf(a: string, b: string, s: string)
    requires s == a + b
    ensures a != "" ==> s != "" && s[0] == a[0]
    ensures b != "" ==> s != "" && s[|s| - 1] == b[|b| - 1]
  {
  }

  /** A text without quotes, brackets and spaces is a word or a number. */
  lemma {:induction false} BareJson(s: string)
    requires Free(s, BARE_BAR) && IsJson(s)
    ensures s in WORDS || IsNumber(s)
  {
    var e :| GoodElement(e) && ElementText(e) == s;
    var t := TextOf(e.value);
    assert s == e.before + t + e.after;
    TreeTextNonempty(e.value);
    if e.before != "" { EndsOf(e.before, t + e.after, s); }
    if e.after != "" { EndsOf(e.before + t, e.after, s); }
    assert e.before == "" && e.after == "" && s == t;
    assert s[0] !in BARE_BAR;
    assert e.value.Word? || e.value.Num?;
  }

  /** A bare text cut short is a JSON text exactly when what is left is a number. */
  lemma {:induction false} CutBareIsJsonIffNumber(full: string, k: nat)
    requires full in WORDS || IsNumber(full)
    requires k < |full|
    ensures IsJson(full[..k]) <==> IsNumber(full[..k])
  {
    var s := full[..k];
    if IsNumber(s) {
      var n :| GoodNumber(n) && NumberText(n) == s;
      TreeIsJson(Num(n));
    }
    if IsJson(s) {
      FullIsBare(full);
      BareJson(s);
      JsonEndsOutside(s);
      if s in WORDS { CutIsNoWord(full, k); }
    }
  }

  lemma {:induction false} FullIsBare(full: string)
    requires full in WORDS || IsNumber(full)
    ensures Free(full, BARE_BAR)
  {
    if full in WORDS {
      WordIsBare(full);
    } else {
      var n :| GoodNumber(n) && NumberText(n) == full;
      NumberTextChars(n);
    }
  }

  /** Words differ in their first characters, and numbers start with none of them. */
  lemma {:induction false} CutIsNoWord(full: string, k: nat)
    requires (full in WORDS || IsNumber(full)) && 0 < k < |full|
    ensures full[..k] !in WORDS
  {
    var s := full[..k];
    assert s[0] == full[0];
    if full !in WORDS {
      var n :| GoodNumber(n) && NumberText(n) == full;
      NumberTextChars(n);
      assert k > 1 ==> s[1] == full[1];
    }
  }

  lemma {:induction false} WordCutIsNotNumber(full: string, k: nat)
    requires full in {"null", "true", "false"} && k < |full|
    ensures !IsNumber(full[..k])
  {
    if IsNumber(full[..k]) {
      var n :| GoodNumber(n) && NumberText(n) == full[..k];
      NumberTextChars(n);
    }
  }
}
