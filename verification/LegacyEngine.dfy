/** The older drift engine of the runtime guard: its own type names, its own
    flattener, and three passes that set severities in place. It is compared
    with the classifier that replaced it. */
module LegacyEngine {
  import opened Texts
  import opened Paths
  import opened Severities
  import opened Classifier
  import opened Drift
  import opened Compatibility
  import opened VersionChain
  import opened ClassifierLoops
  import J = Json

  datatype Norm = Name(t: string) | NList(items: seq<Norm>) | NDict(fields: seq<NField>)
  datatype NField = NField(key: string, value: Norm)

  function NKey(f: NField): string { f.key }

  function NormalizeTypes(v: J.Json): Norm
    decreases v, 1
  {
    match v
    case Object(fs) => NDict(SortBy(NormalizeFields(fs), NKey))
    case List(items) => NList(NormalizeItems(items))
    case Null => Name("null")
    case Bool(_) => Name("bool")
    case Int(_) => Name("int")
    case Float(_) => Name("float")
    case Str(_) => Name("string")
  }

  function NormalizeFields(fs: seq<J.Field>): (ns: seq<NField>)
    ensures |ns| == |fs|
    ensures forall i | 0 <= i < |fs| :: ns[i] == NField(fs[i].key, NormalizeTypes(fs[i].value))
    decreases fs, 0
  {
    if fs == [] then [] else [NField(fs[0].key, NormalizeTypes(fs[0].value))] + NormalizeFields(fs[1..])
  }

  function NormalizeItems(items: seq<J.Json>): (ns: seq<Norm>)
    ensures |ns| == |items|
    ensures forall i | 0 <= i < |items| :: ns[i] == NormalizeTypes(items[i])
    decreases items, 0
  {
    if items == [] then [] else [NormalizeTypes(items[0])] + NormalizeItems(items[1..])
  }

  function FlattenSchema(n: Norm, prefix: string): map<string, string>
    decreases n, 1
  {
    match n
    case Name(t) => map[prefix := t]
    case NDict(fs) => FlattenFields(fs, prefix)
    case NList(items) => map[prefix := "array"] + FlattenElements(items, prefix, 0)
  }

  function FlattenFields(fs: seq<NField>, prefix: string): map<string, string>
    decreases fs, 0
  {
    if fs == [] then map[]
    else FlattenSchema(fs[0].value, Extend(prefix, Key(fs[0].key))) + FlattenFields(fs[1..], prefix)
  }

  function FlattenElements(items: seq<Norm>, prefix: string, base: nat): map<string, string>
    decreases items, 0
  {
    if items == [] then map[]
    else FlattenSchema(items[0], Extend(prefix, Index(base))) + FlattenElements(items[1..], prefix, base + 1)
  }

  // ---- The two flatteners agree ----

  /** The legacy name of a canonical type. */
  function LegacyName(typ: string): string {
    if typ == "boolean" then "bool"
    else if typ == "integer" then "int"
    else if typ == "number" then "float"
    else typ
  }

  /** The same tree, said in the two vocabularies. */
  ghost predicate Corresponds(s: Schema, n: Norm) {
    match s
    case Leaf(t, _, _, _) => PlainLeaf(s) && n == Name(LegacyName(t))
    case ListOf(items) => n.NList? && |n.items| == |items| && forall i | 0 <= i < |items| :: Corresponds(items[i], n.items[i])
    case Dict(ms) =>
      && !Typed(ms) && n.NDict? && |n.fields| == |ms|
      && forall i | 0 <= i < |ms| :: MemberCorresponds(ms[i], n.fields[i])
  }

  ghost predicate MemberCorresponds(m: Member, f: NField)
    decreases m
  {
    m.key == f.key && CleanKey(m.key) && NotType(m.key) && Corresponds(m.value, f.value)
  }

  lemma {:induction false} FormsCorrespond(v: J.Json)
    requires J.KeysSatisfy(v, NotType) && J.KeysSatisfy(v, CleanKey)
    ensures Corresponds(Canonicalize(v), NormalizeTypes(v))
    decreases v
  {
    match v
    case List(items) =>
      forall i | 0 <= i < |items| ensures Corresponds(Canonicalize(items[i]), NormalizeTypes(items[i])) {
        FormsCorrespond(items[i]);
      }
    case Object(fs) =>
      var ms, ns := CanonicalMembers(fs), NormalizeFields(fs);
      forall i | 0 <= i < |fs| ensures MemberKey(ms[i]) == NKey(ns[i]) && MemberCorresponds(ms[i], ns[i]) {
        FormsCorrespond(fs[i].value);
      }
      SortParallel(ms, MemberKey, ns, NKey, MemberCorresponds);
      var sorted := SortBy(ms, MemberKey);
      assert !Typed(sorted) by {
        forall i | 0 <= i < |sorted| ensures sorted[i].key != "type" {
          assert MemberCorresponds(sorted[i], SortBy(ns, NKey)[i]);
        }
      }
    case _ =>
  }

  /** The two flat dictionaries: the same paths, each with the same type. */
  ghost predicate Agree(f: map<string, Schema>, l: map<string, string>) {
    && (forall k :: k in f <==> k in l)
    && (forall k | k in f :: PlainEntry(f[k]) && l[k] == LegacyName(f[k].typ))
  }

  lemma {:induction false} FlattenersAgree(s: Schema, n: Norm, prefix: string)
    requires Corresponds(s, n) && (prefix != "" || s.Dict?)
    ensures Agree(Flatten(s, prefix), FlattenSchema(n, prefix))
    decreases s, 1
  {
    match s
    case Leaf(_, _, _, _) =>
    case ListOf(items) => ElementsAgree(items, n.items, prefix, 0);
    case Dict(ms) => FieldsAgree(ms, n.fields, prefix);
  }

  lemma {:induction false} FieldsAgree(ms: seq<Member>, fs: seq<NField>, prefix: string)
    requires |ms| == |fs| && forall i | 0 <= i < |ms| :: MemberCorresponds(ms[i], fs[i])
    ensures Agree(FlattenMembers(ms, prefix), FlattenFields(fs, prefix))
    decreases ms, 0
  {
    if ms != [] {
      assert MemberCorresponds(ms[0], fs[0]);
      FlattenersAgree(ms[0].value, fs[0].value, Extend(prefix, Key(ms[0].key)));
      FieldsAgree(ms[1..], fs[1..], prefix);
    }
  }

  lemma {:induction false} ElementsAgree(ss: seq<Schema>, ns: seq<Norm>, prefix: string, base: nat)
    requires |ss| == |ns| && forall i | 0 <= i < |ss| :: Corresponds(ss[i], ns[i])
    ensures Agree(FlattenItems(ss, prefix, base), FlattenElements(ns, prefix, base))
    decreases ss, 0
  {
    if ss != [] {
      FlattenersAgree(ss[0], ns[0], Extend(prefix, Index(base)));
      ElementsAgree(ss[1..], ns[1..], prefix, base + 1);
    }
  }

  // ---- The legacy diff and its severities ----

  datatype LegacyItem = LegacyItem(path: string, before: Option<string>, after: Option<string>)

  function Seen(m: map<string, string>, k: string): Option<string> {
    if k in m then Some(m[k]) else None
  }

  function StructuralDiffAlong(paths: seq<string>, o: map<string, string>, n: map<string, string>): seq<LegacyItem> {
    if paths == [] then []
    else
      (if Seen(o, paths[0]) == Seen(n, paths[0]) then []
       else [LegacyItem(paths[0], Seen(o, paths[0]), Seen(n, paths[0]))]) + StructuralDiffAlong(paths[1..], o, n)
  }

  function StructuralDiff(baseline: Norm, incoming: Norm): seq<LegacyItem> {
    var o, n := FlattenSchema(baseline, ""), FlattenSchema(incoming, "");
    StructuralDiffAlong(SortedSet(o.Keys + n.Keys), o, n)
  }

  lemma {:induction false} StructuralStep(paths: seq<string>, i: nat, o: map<string, string>, n: map<string, string>, done: seq<LegacyItem>)
    requires i < |paths|
    ensures var x, y := Seen(o, paths[i]), Seen(n, paths[i]);
      done + StructuralDiffAlong(paths[i..], o, n)
        == (if x == y then done else done + [LegacyItem(paths[i], x, y)]) + StructuralDiffAlong(paths[i + 1..], o, n)
  {
    assert paths[i..][0] == paths[i] && paths[i..][1..] == paths[i + 1..];
  }

  /** The legacy diff as its loop builds it. */
  method StructuralDiffLoop(baseline: Norm, incoming: Norm) returns (items: seq<LegacyItem>)
    ensures items == StructuralDiff(baseline, incoming)
  {
    var o := FlattenSchemaLoop(baseline, "");
    var n := FlattenSchemaLoop(incoming, "");
    items := AppendItems(SortedSet(o.Keys + n.Keys), o, n);
  }

  method AppendItems(paths: seq<string>, o: map<string, string>, n: map<string, string>) returns (items: seq<LegacyItem>)
    ensures items == StructuralDiffAlong(paths, o, n)
  {
    items := [];
    for i := 0 to |paths|
      invariant items + StructuralDiffAlong(paths[i..], o, n) == StructuralDiffAlong(paths, o, n)
    {
      var x, y := Seen(o, paths[i]), Seen(n, paths[i]);
      StructuralStep(paths, i, o, n, items);
      if x != y {
        items := items + [LegacyItem(paths[i], x, y)];
      }
    }
    assert paths[|paths|..] == [];
  }

  method FlattenSchemaLoop(schema: Norm, prefix: string) returns (flat: map<string, string>)
    ensures flat == FlattenSchema(schema, prefix)
    decreases schema
  {
    flat := map[];
    match schema {
      case Name(t) =>
        flat := flat[prefix := t];
      case NDict(fs) =>
        for i := 0 to |fs|
          invariant flat + FlattenFields(fs[i..], prefix) == FlattenFields(fs, prefix)
        {
          var child := FlattenSchemaLoop(fs[i].value, Extend(prefix, Key(fs[i].key)));
          assert fs[i..][0] == fs[i] && fs[i..][1..] == fs[i + 1..];
          UpdateAssociates(flat, child, FlattenFields(fs[i + 1..], prefix));
          flat := flat + child;
        }
        assert fs[|fs|..] == [];
      case NList(items) =>
        flat := flat[prefix := "array"];
        assert flat == map[prefix := "array"];
        for i := 0 to |items|
          invariant flat + FlattenElements(items[i..], prefix, i) == FlattenSchema(schema, prefix)
        {
          var child := FlattenSchemaLoop(items[i], Extend(prefix, Index(i)));
          assert items[i..][0] == items[i] && items[i..][1..] == items[i + 1..];
          UpdateAssociates(flat, child, FlattenElements(items[i + 1..], prefix, i + 1));
          flat := flat + child;
        }
        assert items[|items|..] == [];
    }
  }

  const PRIMITIVES: set<string> := {"int", "float", "string", "bool"}

  /** First pass: an added path is SAFE, whatever severity it had. */
  function SafePass(before: Option<string>, after: Option<string>, sev: Option<Severity>): Option<Severity> {
    if before.None? && after.Some? then Some(Safe) else sev
  }

  /** Second pass: a change between primitive types. */
  function RiskyPass(before: Option<string>, after: Option<string>, sev: Option<Severity>): Option<Severity> {
    if sev.Some? then sev
    else if before.Some? && after.Some? && before.value in PRIMITIVES && after.value in PRIMITIVES && before != after then
      if before.value == "int" && after.value == "float" then Some(Risky) else Some(Breaking)
    else None
  }

  const NULLABLE: string := "nullable_"

  /** Third pass: a removed path, or a `nullable_` type that lost its prefix. */
  function BreakingPass(before: Option<string>, after: Option<string>, sev: Option<Severity>): Option<Severity> {
    if sev.Some? then sev
    else if before.Some? && after.None? then Some(Breaking)
    else if before.Some? && NULLABLE <= before.value && after == Some(before.value[|NULLABLE|..]) then Some(Breaking)
    else None
  }

  function LegacyClass(before: Option<string>, after: Option<string>): Option<Severity> {
    BreakingPass(before, after, RiskyPass(before, after, SafePass(before, after, None)))
  }

  /** Two different names that are not both primitive get a severity exactly when the second
      is the first without its `nullable_`. */
  lemma {:induction false} NullableLost(a: string, b: string)
    requires a != b && !(a in PRIMITIVES && b in PRIMITIVES)
    ensures LegacyClass(Some(a), Some(b)) == if a == "nullable_" + b then Some(Breaking) else None
  {
    if NULLABLE <= a { assert a == NULLABLE + a[|NULLABLE|..]; }
    if a == NULLABLE + b { assert a[|NULLABLE|..] == b; }
  }

  /** One entry of the legacy diff list; its severity is overwritten in place. */
  class DiffEntry {
    const item: LegacyItem
    var severity: Option<Severity>

    constructor (item: LegacyItem)
      ensures this.item == item && severity == None
    {
      this.item := item;
      severity := None;
    }
  }

  ghost predicate Separate(es: seq<DiffEntry>) {
    forall i, j | 0 <= i < j < |es| :: es[i] != es[j]
  }

  method ClassifySafeChanges(es: seq<DiffEntry>)
    requires Separate(es)
    modifies es
    ensures forall i | 0 <= i < |es| :: es[i].severity == SafePass(es[i].item.before, es[i].item.after, old(es[i].severity))
  {
    for k := 0 to |es|
      invariant forall i | 0 <= i < k :: es[i].severity == SafePass(es[i].item.before, es[i].item.after, old(es[i].severity))
      invariant forall i | k <= i < |es| :: es[i].severity == old(es[i].severity)
    {
      var e := es[k];
      if e.item.before.None? && e.item.after.Some? {
        e.severity := Some(Safe);
      }
    }
  }

  method ClassifyRiskyMutations(es: seq<DiffEntry>)
    requires Separate(es)
    modifies es
    ensures forall i | 0 <= i < |es| :: es[i].severity == RiskyPass(es[i].item.before, es[i].item.after, old(es[i].severity))
    ensures forall i | 0 <= i < |es| && old(es[i].severity).Some? :: es[i].severity == old(es[i].severity)
  {
    for k := 0 to |es|
      invariant forall i | 0 <= i < k :: es[i].severity == RiskyPass(es[i].item.before, es[i].item.after, old(es[i].severity))
      invariant forall i | k <= i < |es| :: es[i].severity == old(es[i].severity)
    {
      var e := es[k];
      var o, n := e.item.before, e.item.after;
      if e.severity.None? && o.Some? && n.Some? && o.value in PRIMITIVES && n.value in PRIMITIVES && o != n {
        if o.value == "int" && n.value == "float" {
          e.severity := Some(Risky);
        } else {
          e.severity := Some(Breaking);
        }
      }
    }
  }

  method ClassifyBreakingChanges(es: seq<DiffEntry>)
    requires Separate(es)
    modifies es
    ensures forall i | 0 <= i < |es| :: es[i].severity == BreakingPass(es[i].item.before, es[i].item.after, old(es[i].severity))
    ensures forall i | 0 <= i < |es| && old(es[i].severity).Some? :: es[i].severity == old(es[i].severity)
  {
    for k := 0 to |es|
      invariant forall i | 0 <= i < k :: es[i].severity == BreakingPass(es[i].item.before, es[i].item.after, old(es[i].severity))
      invariant forall i | k <= i < |es| :: es[i].severity == old(es[i].severity)
    {
      var e := es[k];
      if e.severity.None? {
        if e.item.before.Some? && e.item.after.None? {
          e.severity := Some(Breaking);
        } else if e.item.before.Some? && NULLABLE <= e.item.before.value {
          var required := e.item.before.value[|NULLABLE|..];
          if e.item.after == Some(required) {
            e.severity := Some(Breaking);
          }
        }
      }
    }
  }

  /** The three passes in order, over entries whose severity is not yet set. */
  method ClassifyContractDrift(es: seq<DiffEntry>)
    requires Separate(es) && forall i | 0 <= i < |es| :: es[i].severity == None
    modifies es
    ensures forall i | 0 <= i < |es| :: es[i].severity == LegacyClass(es[i].item.before, es[i].item.after)
  {
    ClassifySafeChanges(es);
    ClassifyRiskyMutations(es);
    ClassifyBreakingChanges(es);
  }

  // ---- The engines agree ----

  function ToLegacy(e: Option<Schema>): Option<string>
    requires e.Some? ==> PlainEntry(e.value)
  {
    if e.Some? then Some(LegacyName(e.value.typ)) else None
  }

  lemma {:induction false} LegacyNamesApart(a: Option<Schema>, b: Option<Schema>)
    requires (a.Some? ==> PlainEntry(a.value)) && (b.Some? ==> PlainEntry(b.value))
    ensures ToLegacy(a) == ToLegacy(b) <==> a == b
  {
  }

  lemma {:induction false} NoNullablePrefix(e: Schema)
    requires PlainEntry(e)
    ensures !(NULLABLE <= LegacyName(e.typ))
  {
    var t := LegacyName(e.typ);
    assert t in {"null", "bool", "int", "float", "string", "array"};
    assert NULLABLE[|NULLABLE| - 1] == '_';
  }

  /** A severity the legacy passes set is the runtime class; what they leave unset is BREAKING. */
  lemma {:induction false} ClassesAgree(a: Option<Schema>, b: Option<Schema>)
    requires (a.Some? ==> PlainEntry(a.value)) && (b.Some? ==> PlainEntry(b.value)) && a != b
    ensures var c := LegacyClass(ToLegacy(a), ToLegacy(b));
      Classify(a, b) == if c.Some? then c.value else Breaking
  {
    LegacyNamesApart(a, b);
    if a.Some? {
      NoNullablePrefix(a.value);
    }
  }

  /** The severity a legacy item ends with, BREAKING where the passes leave none. */
  function LegacyVerdict(l: LegacyItem): Severity {
    var c := LegacyClass(l.before, l.after);
    if c.Some? then c.value else Breaking
  }

  ghost predicate SameReport(ds: seq<DiffItem>, ls: seq<LegacyItem>) {
    && |ds| == |ls|
    && forall i | 0 <= i < |ds| :: SameItem(ds[i], ls[i])
  }

  /** The same path and class, and the same types in the two vocabularies. */
  ghost predicate SameItem(d: DiffItem, l: LegacyItem) {
    && d.path == l.path && d.classification == LegacyVerdict(l)
    && Translates(d.oldType, l.before) && Translates(d.newType, l.after)
  }

  predicate Translates(t: Option<TypeName>, name: Option<string>) {
    if t.Some? then t.value.Named? && name == Some(LegacyName(t.value.name)) else name.None?
  }

  lemma {:induction false} EntryTranslates(e: Option<Schema>)
    requires e.Some? ==> PlainEntry(e.value)
    ensures Translates(if e.Some? then Some(TypeOf(e.value)) else None, ToLegacy(e))
  {
  }

  lemma {:induction false} HeadsAgree(k: string, o: map<string, Schema>, n: map<string, Schema>, lo: map<string, string>, ln: map<string, string>)
    requires Agree(o, lo) && Agree(n, ln)
    ensures Get(o, k) == Get(n, k) <==> Seen(lo, k) == Seen(ln, k)
    ensures Get(o, k) != Get(n, k) ==>
      SameItem(ItemFor(k, Get(o, k), Get(n, k)), LegacyItem(k, Seen(lo, k), Seen(ln, k)))
  {
    var a, b := Get(o, k), Get(n, k);
    assert Seen(lo, k) == ToLegacy(a) && Seen(ln, k) == ToLegacy(b);
    LegacyNamesApart(a, b);
    if a != b {
      ClassesAgree(a, b);
      EntryTranslates(a);
      EntryTranslates(b);
    }
  }

  lemma {:induction false} SameReportPrepend(d: DiffItem, ds: seq<DiffItem>, l: LegacyItem, ls: seq<LegacyItem>)
    requires SameReport(ds, ls) && SameItem(d, l)
    ensures SameReport([d] + ds, [l] + ls)
  {
  }

  lemma {:induction false} ReportsAgreeAlong(paths: seq<string>,
      o: map<string, Schema>, n: map<string, Schema>, lo: map<string, string>, ln: map<string, string>)
    requires Agree(o, lo) && Agree(n, ln)
    ensures SameReport(DiffAlong(paths, o, n), StructuralDiffAlong(paths, lo, ln))
  {
    if paths != [] {
      ReportsAgreeAlong(paths[1..], o, n, lo, ln);
      var k, ds, ls := paths[0], DiffAlong(paths[1..], o, n), StructuralDiffAlong(paths[1..], lo, ln);
      HeadsAgree(k, o, n, lo, ln);
      if Get(o, k) == Get(n, k) {
        assert [] + ds == ds && [] + ls == ls;
      } else {
        SameReportPrepend(ItemFor(k, Get(o, k), Get(n, k)), ds, LegacyItem(k, Seen(lo, k), Seen(ln, k)), ls);
      }
    }
  }

  /** For object payloads with clean keys and no key `type`, the two engines report
      the same paths; a severity the legacy passes set is the runtime class, and
      where they set none the runtime class is BREAKING. */
  lemma {:induction false} EnginesAgree(fs: seq<J.Field>, gs: seq<J.Field>)
    requires J.KeysSatisfy(J.Object(fs), NotType) && J.KeysSatisfy(J.Object(fs), CleanKey)
    requires J.KeysSatisfy(J.Object(gs), NotType) && J.KeysSatisfy(J.Object(gs), CleanKey)
    ensures var v, w := J.Object(fs), J.Object(gs);
      SameReport(Diff(Canonicalize(v), Canonicalize(w)), StructuralDiff(NormalizeTypes(v), NormalizeTypes(w)))
  {
    var v, w := J.Object(fs), J.Object(gs);
    FormsCorrespond(v);
    FormsCorrespond(w);
    var s, t, m, n := Canonicalize(v), Canonicalize(w), NormalizeTypes(v), NormalizeTypes(w);
    FlattenersAgree(s, m, "");
    FlattenersAgree(t, n, "");
    assert Flatten(s, "").Keys + Flatten(t, "").Keys == FlattenSchema(m, "").Keys + FlattenSchema(n, "").Keys;
    ReportsAgreeAlong(SortedSet(Flatten(s, "").Keys + Flatten(t, "").Keys),
      Flatten(s, ""), Flatten(t, ""), FlattenSchema(m, ""), FlattenSchema(n, ""));
  }
}
