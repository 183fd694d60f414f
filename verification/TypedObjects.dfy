/** Objects with a key `type`, which flattening leaves closed: exactly for which payloads a
    SAFE successor contains the schema, and a successor that is not BREAKING keeps its paths. */
module TypedObjects {
  import opened Texts
  import opened Paths
  import opened Severities
  import opened Classifier
  import opened Drift
  import opened Compatibility
  import opened VersionChain
  import J = Json

  // ---- A canonical dictionary, read by key ----

  lemma {:induction false} FieldOfAppend(a: seq<J.Field>, b: seq<J.Field>, k: string)
    ensures J.FieldOf(a + b, k) == if J.FieldOf(a, k).Some? then J.FieldOf(a, k) else J.FieldOf(b, k)
  {
    if a == [] {
      assert a + b == b;
    } else {
      assert (a + b)[0] == a[0] && (a + b)[1..] == a[1..] + b;
      FieldOfAppend(a[1..], b, k);
    }
  }

  function MembersOf(fs: seq<J.Field>): seq<Member> { SortBy(CanonicalMembers(fs), MemberKey) }

  lemma {:induction false} CanonicalFind(fs: seq<J.Field>, k: string)
    requires J.DistinctKeys(fs)
    ensures HasKey(MembersOf(fs), k) <==> J.FieldOf(fs, k).Some?
    ensures J.FieldOf(fs, k).Some? ==> Find(MembersOf(fs), k) == Canonicalize(J.FieldOf(fs, k).value)
  {
    var ms := MembersOf(fs);
    MembersApart(fs, ms);
    J.FieldOfFrom(fs, k);
    if J.FieldOf(fs, k).Some? {
      var i :| 0 <= i < |fs| && fs[i] == J.Field(k, J.FieldOf(fs, k).value);
      SameMultisetSameMembers(CanonicalMembers(fs), ms, CanonicalMembers(fs)[i]);
      var j :| 0 <= j < |ms| && ms[j] == Member(k, Canonicalize(fs[i].value));
      FindAt(ms, j);
    } else if HasKey(ms, k) {
      var j :| 0 <= j < |ms| && ms[j].key == k;
      var i := MemberOrigin(fs, ms, j);
    }
  }

  // ---- A SAFE change inside every typed object ----

  function KeyText(fs: seq<J.Field>): string { if fs == [] then "" else fs[0].key + KeyText(fs[1..]) }

  lemma {:induction false} KeyTextLength(fs: seq<J.Field>, i: nat)
    requires i < |fs|
    ensures |fs[i].key| <= |KeyText(fs)|
  {
    if i > 0 { KeyTextLength(fs[1..], i - 1); }
  }

  /** A key that no field has. */
  function FreshKey(fs: seq<J.Field>): string { "type" + KeyText(fs) }

  function KeptField(fs: seq<J.Field>, k: string): seq<J.Field> {
    if J.FieldOf(fs, k).Some? then [J.Field(k, J.FieldOf(fs, k).value)] else []
  }

  /** The object with its type and nullability, and one other key. */
  function Swapped(fs: seq<J.Field>): seq<J.Field> {
    KeptField(fs, "type") + KeptField(fs, "nullable") + [J.Field(FreshKey(fs), J.Null)]
  }

  lemma {:induction false} FreshKeyIsFresh(fs: seq<J.Field>)
    requires J.FieldOf(fs, "type").Some?
    ensures FreshKey(fs) != "type" && FreshKey(fs) != "nullable" && J.FieldOf(fs, FreshKey(fs)).None?
  {
    J.FieldOfFrom(fs, "type");
    var i :| 0 <= i < |fs| && fs[i].key == "type";
    KeyTextLength(fs, i);
    assert FreshKey(fs)[0] == 't' && "nullable"[0] == 'n';
    J.FieldOfFrom(fs, FreshKey(fs));
    assert |FreshKey(fs)| == 4 + |KeyText(fs)|;
    if J.FieldOf(fs, FreshKey(fs)).Some? {
      var j :| 0 <= j < |fs| && fs[j].key == FreshKey(fs);
      KeyTextLength(fs, j);
    }
  }

  lemma {:induction false} OneFieldOf(f: J.Field, k: string)
    ensures J.FieldOf([f], k) == if f.key == k then Some(f.value) else None
  {
    assert [f][1..] == [];
  }

  lemma {:induction false} KeptFieldOf(fs: seq<J.Field>, k: string, key: string)
    ensures J.FieldOf(KeptField(fs, k), key) == if key == k then J.FieldOf(fs, k) else None
  {
    if J.FieldOf(fs, k).Some? { OneFieldOf(J.Field(k, J.FieldOf(fs, k).value), key); }
  }

  lemma {:induction false} SwappedFields(fs: seq<J.Field>, k: string)
    requires J.FieldOf(fs, "type").Some?
    ensures J.DistinctKeys(Swapped(fs))
    ensures k == "type" || k == "nullable" ==> J.FieldOf(Swapped(fs), k) == J.FieldOf(fs, k)
    ensures k == FreshKey(fs) ==> J.FieldOf(Swapped(fs), k).Some?
  {
    var last := J.Field(FreshKey(fs), J.Null);
    assert |"type"| == 4 && |"nullable"| == 8;
    FreshKeyIsFresh(fs);
    KeptFieldOf(fs, "type", k);
    KeptFieldOf(fs, "nullable", k);
    OneFieldOf(last, k);
    FieldOfAppend(KeptField(fs, "type"), KeptField(fs, "nullable"), k);
    FieldOfAppend(KeptField(fs, "type") + KeptField(fs, "nullable"), [last], k);
  }

  lemma {:induction false} CanonicalReads(fs: seq<J.Field>)
    requires J.DistinctKeys(fs)
    ensures var s, t, n := Dict(MembersOf(fs)), J.FieldOf(fs, "type"), J.FieldOf(fs, "nullable");
      && (TypedEntry(s) <==> t.Some?) && TypeOf(s) == (if t.Some? then Printed(Canonicalize(t.value)) else Named("object"))
      && NullableOf(s) == if n.Some? then Some(Truthy(Canonicalize(n.value))) else None
  {
    CanonicalFind(fs, "type");
    CanonicalFind(fs, "nullable");
  }

  /** What a typed object becomes. */
  ghost predicate SafelyChanged(e: Schema, e': Schema) {
    TypedEntry(e) && TypedEntry(e') && e' != e && TypeOf(e') == TypeOf(e) && NullableOf(e') == NullableOf(e)
  }

  lemma {:induction false} SwappedIsOther(fs: seq<J.Field>)
    requires J.DistinctKeys(fs) && J.FieldOf(fs, "type").Some?
    ensures MembersOf(Swapped(fs)) != MembersOf(fs)
  {
    SwappedFields(fs, FreshKey(fs));
    FreshKeyIsFresh(fs);
    CanonicalFind(fs, FreshKey(fs));
    CanonicalFind(Swapped(fs), FreshKey(fs));
  }

  lemma {:induction false} SwappedIsSafe(fs: seq<J.Field>)
    requires J.DistinctKeys(fs) && J.FieldOf(fs, "type").Some?
    ensures J.DistinctKeys(Swapped(fs)) && SafelyChanged(Dict(MembersOf(fs)), Dict(MembersOf(Swapped(fs))))
  {
    SwappedFields(fs, "type");
    SwappedFields(fs, "nullable");
    SwappedIsOther(fs);
    CanonicalReads(fs);
    CanonicalReads(Swapped(fs));
  }

  // ---- Rewriting the typed objects of a payload ----

  function Rewrite(v: J.Json, f: seq<J.Field> -> J.Json): J.Json
    decreases v, 1
  {
    match v
    case Object(fs) => if J.FieldOf(fs, "type").Some? then f(fs) else J.Object(RewriteFields(fs, f))
    case List(items) => J.List(RewriteItems(items, f))
    case _ => v
  }

  function RewriteFields(fs: seq<J.Field>, f: seq<J.Field> -> J.Json): (gs: seq<J.Field>)
    ensures |gs| == |fs| && forall i | 0 <= i < |fs| :: gs[i] == J.Field(fs[i].key, Rewrite(fs[i].value, f))
    decreases fs, 0
  {
    if fs == [] then [] else [J.Field(fs[0].key, Rewrite(fs[0].value, f))] + RewriteFields(fs[1..], f)
  }

  function RewriteItems(items: seq<J.Json>, f: seq<J.Field> -> J.Json): (r: seq<J.Json>)
    ensures |r| == |items| && forall i | 0 <= i < |items| :: r[i] == Rewrite(items[i], f)
    decreases items, 0
  {
    if items == [] then [] else [Rewrite(items[0], f)] + RewriteItems(items[1..], f)
  }

  lemma {:induction false} RewriteIsValid(v: J.Json, f: seq<J.Field> -> J.Json)
    requires J.Valid(v) && forall fs | J.Valid(J.Object(fs)) && J.FieldOf(fs, "type").Some? :: J.Valid(f(fs))
    ensures J.Valid(Rewrite(v, f))
    decreases v
  {
    match v
    case Object(fs) =>
      if J.FieldOf(fs, "type").None? {
        forall i | 0 <= i < |fs| ensures J.Valid(Rewrite(fs[i].value, f)) { RewriteIsValid(fs[i].value, f); }
      }
    case List(items) =>
      forall i | 0 <= i < |items| ensures J.Valid(Rewrite(items[i], f)) { RewriteIsValid(items[i], f); }
    case _ =>
  }

  /** Two schemas alike but for their typed objects, which are as `typed` says. */
  ghost predicate AlikeBut(s: Schema, s': Schema, typed: (Schema, Schema) -> bool)
    decreases s
  {
    match s
    case Leaf(_, _, _, _) => s' == s
    case ListOf(items) => s'.ListOf? && |s'.items| == |items| && forall i | 0 <= i < |items| :: AlikeBut(items[i], s'.items[i], typed)
    case Dict(ms) =>
      if Typed(ms) then typed(s, s')
      else
        && s'.Dict? && !Typed(s'.members) && |s'.members| == |ms|
        && forall i | 0 <= i < |ms| :: ms[i].key == s'.members[i].key && AlikeBut(ms[i].value, s'.members[i].value, typed)
  }

  /** Rewriting the typed objects of a payload rewrites those of its schema. */
  lemma {:induction false} RewriteIsAlike(v: J.Json, f: seq<J.Field> -> J.Json, typed: (Schema, Schema) -> bool)
    requires J.Valid(v)
    requires forall fs | J.Valid(J.Object(fs)) && J.FieldOf(fs, "type").Some? :: typed(Canonicalize(J.Object(fs)), Canonicalize(f(fs)))
    ensures AlikeBut(Canonicalize(v), Canonicalize(Rewrite(v, f)), typed)
    decreases v
  {
    match v
    case Object(fs) =>
      CanonicalReads(fs);
      if J.FieldOf(fs, "type").None? {
        forall i | 0 <= i < |fs| ensures AlikeBut(Canonicalize(fs[i].value), Canonicalize(Rewrite(fs[i].value, f)), typed) {
          RewriteIsAlike(fs[i].value, f, typed);
        }
        MembersAlike(fs, RewriteFields(fs, f), typed);
      }
    case List(items) =>
      forall i | 0 <= i < |items| ensures AlikeBut(Canonicalize(items[i]), Canonicalize(Rewrite(items[i], f)), typed) {
        RewriteIsAlike(items[i], f, typed);
      }
    case _ =>
  }

  ghost predicate Parallel(ms: seq<Member>, ns: seq<Member>, typed: (Schema, Schema) -> bool) {
    |ns| == |ms| && forall i | 0 <= i < |ms| :: ms[i].key == ns[i].key && AlikeBut(ms[i].value, ns[i].value, typed)
  }

  lemma {:induction false} ParallelIsAlike(ms: seq<Member>, ns: seq<Member>, typed: (Schema, Schema) -> bool)
    requires Parallel(ms, ns, typed) && !Typed(ms)
    ensures AlikeBut(Dict(ms), Dict(ns), typed)
  {
    forall i | 0 <= i < |ns| ensures ns[i].key != "type" { assert ms[i].key == ns[i].key; }
  }

  lemma {:induction false} SortedParallel(ms: seq<Member>, ns: seq<Member>, typed: (Schema, Schema) -> bool)
    requires Parallel(ms, ns, typed)
    ensures Parallel(SortBy(ms, MemberKey), SortBy(ns, MemberKey), typed)
  {
    var rel := (a: Member, b: Member) => AlikeBut(a.value, b.value, typed);
    SortParallel(ms, MemberKey, ns, MemberKey, rel);
    var u, v := SortBy(ms, MemberKey), SortBy(ns, MemberKey);
    forall i | 0 <= i < |u| ensures u[i].key == v[i].key && AlikeBut(u[i].value, v[i].value, typed) {
      assert MemberKey(u[i]) == MemberKey(v[i]) && rel(u[i], v[i]);
    }
  }

  lemma {:induction false} MembersAlike(fs: seq<J.Field>, gs: seq<J.Field>, typed: (Schema, Schema) -> bool)
    requires |gs| == |fs| && !Typed(MembersOf(fs))
    requires forall i | 0 <= i < |fs| :: gs[i].key == fs[i].key && AlikeBut(Canonicalize(fs[i].value), Canonicalize(gs[i].value), typed)
    ensures AlikeBut(Dict(MembersOf(fs)), Dict(MembersOf(gs)), typed)
  {
    assert Parallel(CanonicalMembers(fs), CanonicalMembers(gs), typed);
    SortedParallel(CanonicalMembers(fs), CanonicalMembers(gs), typed);
    ParallelIsAlike(MembersOf(fs), MembersOf(gs), typed);
  }

  // ---- When SAFE is containment ----

  /** The same slots, the entries differing only where they are typed, and there safely. */
  ghost predicate SafelySwapped(o: map<string, Schema>, n: map<string, Schema>) {
    o.Keys == n.Keys && forall k | k in o :: if TypedEntry(o[k]) then SafelyChanged(o[k], n[k]) else n[k] == o[k]
  }

  lemma {:induction false} AlikeFlatten(s: Schema, s': Schema, typed: (Schema, Schema) -> bool, prefix: string)
    requires AlikeBut(s, s', typed) && forall a, b :: typed(a, b) ==> SafelyChanged(a, b)
    ensures SafelySwapped(Flatten(s, prefix), Flatten(s', prefix))
    decreases s, 1
  {
    if s.ListOf? {
      AlikeFlattenItems(s.items, s'.items, typed, prefix, 0);
    } else if s.Dict? && !Typed(s.members) {
      AlikeFlattenMembers(s.members, s'.members, typed, prefix);
    }
  }

  lemma {:induction false} AlikeFlattenMembers(ms: seq<Member>, ns: seq<Member>, typed: (Schema, Schema) -> bool, prefix: string)
    requires |ns| == |ms| && forall a, b :: typed(a, b) ==> SafelyChanged(a, b)
    requires forall i | 0 <= i < |ms| :: ms[i].key == ns[i].key && AlikeBut(ms[i].value, ns[i].value, typed)
    ensures SafelySwapped(FlattenMembers(ms, prefix), FlattenMembers(ns, prefix))
    decreases ms, 0
  {
    if ms != [] {
      AlikeFlatten(ms[0].value, ns[0].value, typed, Extend(prefix, Key(ms[0].key)));
      AlikeFlattenMembers(ms[1..], ns[1..], typed, prefix);
    }
  }

  lemma {:induction false} AlikeFlattenItems(items: seq<Schema>, others: seq<Schema>, typed: (Schema, Schema) -> bool, prefix: string, base: nat)
    requires |others| == |items| && forall a, b :: typed(a, b) ==> SafelyChanged(a, b)
    requires forall i | 0 <= i < |items| :: AlikeBut(items[i], others[i], typed)
    ensures SafelySwapped(FlattenItems(items, prefix, base), FlattenItems(others, prefix, base))
    decreases items, 0
  {
    if items != [] {
      AlikeFlatten(items[0], others[0], typed, Extend(prefix, Index(base)));
      AlikeFlattenItems(items[1..], others[1..], typed, prefix, base + 1);
    }
  }

  lemma {:induction false} SwappedEntryIsSafe(o: map<string, Schema>, n: map<string, Schema>, k: string)
    requires SafelySwapped(o, n) && Get(o, k) != Get(n, k)
    ensures Classify(Get(o, k), Get(n, k)) == Safe
  {
    TypedChangeIsSafe(o[k], n[k]);
  }

  lemma {:induction false} SwapContains(o: map<string, Schema>, n: map<string, Schema>)
    requires SafelySwapped(o, n) && CanonicalEntries(o)
    ensures Submap(o, n) <==> PlainEntries(o)
  {
    if Submap(o, n) {
      forall k | k in o ensures PlainEntry(o[k]) { assert n[k] == o[k]; }
    }
  }

  /** Such a change is SAFE, and where there is a typed entry it is not containment. */
  lemma {:induction false} SwapIsSafe(before: Schema, after: Schema)
    requires SafelySwapped(Flatten(before, ""), Flatten(after, "")) && CanonicalSchema(before)
    ensures StepClass(before, after) == Safe && (Contained(before, after) <==> PayloadSchema(before))
  {
    SwapContains(Flatten(before, ""), Flatten(after, ""));
    if StepClass(before, after) != Safe {
      var k := SummaryIsOfAPath(before, after);
      SwappedEntryIsSafe(Flatten(before, ""), Flatten(after, ""), k);
    }
  }

  function SwapObject(fs: seq<J.Field>): J.Json { J.Object(Swapped(fs)) }

  lemma {:induction false} SwappedIsValid(fs: seq<J.Field>)
    requires J.Valid(J.Object(fs)) && J.FieldOf(fs, "type").Some?
    ensures J.Valid(SwapObject(fs))
  {
    SwappedFields(fs, "type");
    J.FieldOfFrom(fs, "type");
    J.FieldOfFrom(fs, "nullable");
  }

  /** A payload whose successor is SAFE and, if it shows a typed object, does not contain it. */
  lemma {:induction false} SafeSuccessor(v: J.Json)
    requires J.Valid(v)
    ensures var w := Rewrite(v, SwapObject);
      J.Valid(w) && StepClass(Canonicalize(v), Canonicalize(w)) == Safe &&
      (Contained(Canonicalize(v), Canonicalize(w)) <==> PayloadSchema(Canonicalize(v)))
  {
    var w, typed := Rewrite(v, SwapObject), (a: Schema, b: Schema) => SafelyChanged(a, b);
    forall fs | J.Valid(J.Object(fs)) && J.FieldOf(fs, "type").Some?
      ensures J.Valid(SwapObject(fs)) && typed(Canonicalize(J.Object(fs)), Canonicalize(SwapObject(fs)))
    {
      SwappedIsValid(fs);
      SwappedIsSafe(fs);
    }
    RewriteIsValid(v, SwapObject);
    RewriteIsAlike(v, SwapObject, typed);
    AlikeFlatten(Canonicalize(v), Canonicalize(w), typed, "");
    CanonicalIsCanonical(v);
    SwapIsSafe(Canonicalize(v), Canonicalize(w));
  }

  /** Every SAFE successor of a payload contains its flat schema exactly when that schema
      shows no object with a key `type`. */
  lemma {:induction false} SafeContainsIffUntyped(v: J.Json)
    requires J.Valid(v)
    ensures PayloadSchema(Canonicalize(v)) <==>
      forall w | J.Valid(w) && StepClass(Canonicalize(v), Canonicalize(w)) == Safe :: Contained(Canonicalize(v), Canonicalize(w))
  {
    if PayloadSchema(Canonicalize(v)) {
      forall w | StepClass(Canonicalize(v), Canonicalize(w)) == Safe ensures Contained(Canonicalize(v), Canonicalize(w)) {
        CanonicalIsCanonical(w);
        SafeStep(Canonicalize(v), Canonicalize(w));
      }
    } else {
      SafeSuccessor(v);
      assert !Contained(Canonicalize(v), Canonicalize(Rewrite(v, SwapObject)));
    }
  }

  // ---- When not BREAKING is compatible ----

  /** The object itself if it says that it is required, and otherwise an empty one. */
  function DropObject(fs: seq<J.Field>): J.Json {
    if RequiredOr(Canonicalize(J.Object(fs)), true) then J.Object(fs) else J.Object([])
  }

  /** A typed entry that does not say it is required goes, any other stays. */
  ghost predicate Dropped(e: Schema, e': Schema) { e' == if RequiredOr(e, true) then e else Dict([]) }

  lemma {:induction false} DropIsDropped(fs: seq<J.Field>)
    ensures Dropped(Canonicalize(J.Object(fs)), Canonicalize(DropObject(fs)))
  {
    assert Canonicalize(J.Object([])) == Dict([]);
  }

  lemma {:induction false} RewriteIsClean(v: J.Json, f: seq<J.Field> -> J.Json)
    requires J.KeysSatisfy(v, CleanKey)
    requires forall fs | J.KeysSatisfy(J.Object(fs), CleanKey) :: J.KeysSatisfy(f(fs), CleanKey)
    ensures J.KeysSatisfy(Rewrite(v, f), CleanKey)
    decreases v
  {
    match v
    case Object(fs) =>
      if J.FieldOf(fs, "type").None? {
        forall i | 0 <= i < |fs| ensures J.KeysSatisfy(Rewrite(fs[i].value, f), CleanKey) { RewriteIsClean(fs[i].value, f); }
      }
    case List(items) =>
      forall i | 0 <= i < |items| ensures J.KeysSatisfy(Rewrite(items[i], f), CleanKey) { RewriteIsClean(items[i], f); }
    case _ =>
  }

  function Filtered(e: Option<Schema>): Option<Schema> {
    if e.Some? && !RequiredOr(e.value, true) then None else e
  }

  /** The rewritten schema shows the same but for the entries that are not required. */
  lemma {:induction false} DropShows(s: Schema, s': Schema, typed: (Schema, Schema) -> bool, p: Path)
    requires AlikeBut(s, s', typed) && (forall a, b :: typed(a, b) ==> Dropped(a, b)) && PlainLeaves(s)
    requires Clean(s) && Clean(s')
    ensures At(s', p) == Filtered(At(s, p))
    decreases p
  {
    if s.ListOf? {
      if p.Then? && p.step.Index? && p.step.i < |s.items| {
        DropShows(s.items[p.step.i], s'.items[p.step.i], typed, p.rest);
      }
    } else if s.Dict? && !Typed(s.members) {
      if p.Then? && p.step.Key? {
        if HasKey(s.members, p.step.k) {
          var i :| 0 <= i < |s.members| && s.members[i].key == p.step.k;
          FindAt(s.members, i);
          FindAt(s'.members, i);
          DropShows(s.members[i].value, s'.members[i].value, typed, p.rest);
        }
      }
    } else if s.Dict? {
      EmptyShowsNothing(p);
    }
  }

  lemma {:induction false} EmptyShowsNothing(p: Path)
    ensures At(Dict([]), p).None?
  {
  }

  /** The same slots and entries, less those of `o` that are not required. */
  ghost predicate KeepsRequired(o: map<string, Schema>, n: map<string, Schema>) {
    && (forall k | k in n :: k in o && n[k] == o[k] && RequiredOr(o[k], true))
    && (forall k | k in o && RequiredOr(o[k], true) :: k in n)
  }

  lemma {:induction false} FilteredFlat(a: Schema, b: Schema)
    requires Clean(a) && Clean(b) && forall p :: At(b, p) == Filtered(At(a, p))
    ensures KeepsRequired(Flatten(a, ""), Flatten(b, ""))
  {
    var o, n := Flatten(a, ""), Flatten(b, "");
    forall k | k in n ensures k in o && n[k] == o[k] && RequiredOr(o[k], true) {
      var p := FlattenSound(b, "", k);
      FlattenComplete(a, "", p);
    }
    forall k | k in o && RequiredOr(o[k], true) ensures k in n {
      var p := FlattenSound(a, "", k);
      FlattenComplete(b, "", p);
    }
  }

  lemma {:induction false} KeptEntryIsRisky(o: map<string, Schema>, n: map<string, Schema>, k: string)
    requires KeepsRequired(o, n) && Get(o, k) != Get(n, k)
    ensures Classify(Get(o, k), Get(n, k)) == Risky
  {
  }

  lemma {:induction false} KeepsCompatible(o: map<string, Schema>, n: map<string, Schema>)
    requires KeepsRequired(o, n)
    ensures Compatible(o, n) <==> forall k | k in o :: RequiredOr(o[k], true)
  {
    if Compatible(o, n) {
      forall k | k in o ensures RequiredOr(o[k], true) { assert k in n; }
    }
    if forall k | k in o :: RequiredOr(o[k], true) {
      forall k | k in o ensures k in n && KeptOrWidened(o[k], n[k]) { assert RequiredOr(o[k], true); }
    }
  }

  /** Such a change is not BREAKING, and where it removes anything not compatible. */
  lemma {:induction false} DropIsNotBreaking(before: Schema, after: Schema)
    requires KeepsRequired(Flatten(before, ""), Flatten(after, ""))
    ensures StepClass(before, after) != Breaking && (CompatibleSchemas(before, after) <==> SaysRequired(before))
  {
    KeepsCompatible(Flatten(before, ""), Flatten(after, ""));
    if StepClass(before, after) == Breaking {
      var k := SummaryIsOfAPath(before, after);
      KeptEntryIsRisky(Flatten(before, ""), Flatten(after, ""), k);
    }
  }

  ghost predicate CleanPayload(v: J.Json) { J.Valid(v) && J.KeysSatisfy(v, CleanKey) }

  /** A payload whose successor is not BREAKING and, if an entry does not say it is
      required, loses it. */
  lemma {:induction false} NonBreakingSuccessor(v: J.Json)
    requires CleanPayload(v)
    ensures var w := Rewrite(v, DropObject);
      CleanPayload(w) && StepClass(Canonicalize(v), Canonicalize(w)) != Breaking &&
      (CompatibleSchemas(Canonicalize(v), Canonicalize(w)) <==> SaysRequired(Canonicalize(v)))
  {
    var w, typed := Rewrite(v, DropObject), (a: Schema, b: Schema) => Dropped(a, b);
    RewriteIsValid(v, DropObject);
    RewriteIsClean(v, DropObject);
    forall fs ensures typed(Canonicalize(J.Object(fs)), Canonicalize(DropObject(fs))) { DropIsDropped(fs); }
    RewriteIsAlike(v, DropObject, typed);
    CanonicalIsClean(v);
    CanonicalIsClean(w);
    CanonicalIsPlain(v);
    forall p ensures At(Canonicalize(w), p) == Filtered(At(Canonicalize(v), p)) {
      DropShows(Canonicalize(v), Canonicalize(w), typed, p);
    }
    FilteredFlat(Canonicalize(v), Canonicalize(w));
    DropIsNotBreaking(Canonicalize(v), Canonicalize(w));
  }

  /** Every successor of a payload that is not BREAKING keeps or widens all its flat paths
      exactly when no object it shows has keys `type` and `required` with an empty list or
      object under the latter. */
  lemma {:induction false} CompatibleIffRequired(v: J.Json)
    requires CleanPayload(v)
    ensures SaysRequired(Canonicalize(v)) <==>
      forall w | CleanPayload(w) && StepClass(Canonicalize(v), Canonicalize(w)) != Breaking ::
        CompatibleSchemas(Canonicalize(v), Canonicalize(w))
  {
    if SaysRequired(Canonicalize(v)) {
      forall w | StepClass(Canonicalize(v), Canonicalize(w)) != Breaking ensures CompatibleSchemas(Canonicalize(v), Canonicalize(w)) {
        NonBreakingStep(Canonicalize(v), Canonicalize(w));
      }
    } else {
      NonBreakingSuccessor(v);
      assert !CompatibleSchemas(Canonicalize(v), Canonicalize(Rewrite(v, DropObject)));
    }
  }
}
