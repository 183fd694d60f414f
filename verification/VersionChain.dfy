/** Summaries of a diff, and what the summaries along a chain of versions
    guarantee between any two of them. */
module VersionChain {
  import opened Texts
  import opened Paths
  import opened Severities
  import opened Classifier
  import opened Drift
  import opened Compatibility
  import J = Json

  /** The class of the highest rank among the items; SAFE when there are none. */
  function Summarize(ds: seq<DiffItem>): Severity {
    if ds == [] then Safe
    else
      var rest := Summarize(ds[1..]);
      if Rank(rest) > Rank(ds[0].classification) then rest else ds[0].classification
  }

  lemma {:induction false} SummarizeIsMaximum(ds: seq<DiffItem>)
    ensures forall i | 0 <= i < |ds| :: Rank(ds[i].classification) <= Rank(Summarize(ds))
    ensures ds != [] ==> exists i | 0 <= i < |ds| :: ds[i].classification == Summarize(ds)
  {
    if ds != [] {
      SummarizeIsMaximum(ds[1..]);
      if Rank(Summarize(ds[1..])) > Rank(ds[0].classification) {
        var i :| 0 <= i < |ds[1..]| && ds[1..][i].classification == Summarize(ds[1..]);
        assert ds[i + 1].classification == Summarize(ds);
      }
    }
  }

  // ---- Flat entries of canonical schemas ----

  predicate PlainEntry(e: Schema) { PlainLeaf(e) || e == ARRAY_ENTRY }

  /** An object with a key `type`, which flattening leaves closed. */
  predicate TypedEntry(e: Schema) { e.Dict? && Typed(e.members) }

  ghost predicate PlainEntries(m: map<string, Schema>) {
    forall k | k in m :: PlainEntry(m[k])
  }

  ghost predicate CanonicalEntries(m: map<string, Schema>) {
    forall k | k in m :: PlainEntry(m[k]) || TypedEntry(m[k])
  }

  lemma {:induction false} FlattenCanonical(s: Schema, prefix: string)
    requires PlainLeaves(s)
    ensures CanonicalEntries(Flatten(s, prefix)) && (Untyped(s) ==> PlainEntries(Flatten(s, prefix)))
    decreases s, 1
  {
    if s.ListOf? {
      FlattenItemsCanonical(s.items, prefix, 0);
    } else if s.Dict? {
      FlattenMembersCanonical(s.members, prefix);
    }
  }

  lemma {:induction false} FlattenMembersCanonical(ms: seq<Member>, prefix: string)
    requires forall i | 0 <= i < |ms| :: PlainLeaves(ms[i].value)
    ensures CanonicalEntries(FlattenMembers(ms, prefix))
    ensures (forall i | 0 <= i < |ms| :: Untyped(ms[i].value)) ==> PlainEntries(FlattenMembers(ms, prefix))
    decreases ms, 0
  {
    if ms != [] {
      FlattenCanonical(ms[0].value, Extend(prefix, Key(ms[0].key)));
      FlattenMembersCanonical(ms[1..], prefix);
    }
  }

  lemma {:induction false} FlattenItemsCanonical(items: seq<Schema>, prefix: string, base: nat)
    requires forall i | 0 <= i < |items| :: PlainLeaves(items[i])
    ensures CanonicalEntries(FlattenItems(items, prefix, base))
    ensures (forall i | 0 <= i < |items| :: Untyped(items[i])) ==> PlainEntries(FlattenItems(items, prefix, base))
    decreases items, 0
  {
    if items != [] {
      FlattenCanonical(items[0], Extend(prefix, Index(base)));
      FlattenItemsCanonical(items[1..], prefix, base + 1);
    }
  }

  /** A schema that shows no object with a key `type`. */
  ghost predicate PayloadSchema(s: Schema) { PlainEntries(Flatten(s, "")) }

  /** A schema as canonicalisation makes them. */
  ghost predicate CanonicalSchema(s: Schema) { CanonicalEntries(Flatten(s, "")) }

  /** No object it shows has keys `type` and `required` with an empty list or object under the latter. */
  ghost predicate SaysRequired(s: Schema) {
    forall k | k in Flatten(s, "") :: RequiredOr(Flatten(s, "")[k], true)
  }

  lemma {:induction false} CanonicalIsCanonical(v: J.Json)
    ensures CanonicalSchema(Canonicalize(v))
    ensures J.KeysSatisfy(v, NotType) ==> PayloadSchema(Canonicalize(v))
  {
    CanonicalIsPlain(v);
    if J.KeysSatisfy(v, NotType) { CanonicalIsUntyped(v); }
    FlattenCanonical(Canonicalize(v), "");
  }

  // ---- Compatibility of flat schemas ----

  /** Same type, or an integer that became a number. */
  predicate KeptOrWidened(o: Schema, n: Schema) {
    TypeOf(o) == TypeOf(n) || (TypeOf(o) == Named("integer") && TypeOf(n) == Named("number"))
  }

  ghost predicate Compatible(o: map<string, Schema>, n: map<string, Schema>) {
    forall k | k in o :: k in n && KeptOrWidened(o[k], n[k])
  }

  ghost predicate Submap(o: map<string, Schema>, n: map<string, Schema>) {
    forall k | k in o :: k in n && n[k] == o[k]
  }

  /** The class the registry stores for a version that follows another. */
  function StepClass(before: Schema, after: Schema): Severity {
    Summarize(Diff(before, after))
  }

  lemma {:induction false} ItemAtMostSummary(before: Schema, after: Schema, k: string)
    requires Get(Flatten(before, ""), k) != Get(Flatten(after, ""), k)
    ensures Rank(Classify(Get(Flatten(before, ""), k), Get(Flatten(after, ""), k))) <= Rank(StepClass(before, after))
  {
    DiffReports(before, after);
    var ds := Diff(before, after);
    assert Lists(ds, k);
    var i :| 0 <= i < |ds| && ds[i].path == k;
    SummarizeIsMaximum(ds);
  }

  /** A class that is not SAFE is that of some path. */
  lemma {:induction false} SummaryIsOfAPath(before: Schema, after: Schema) returns (k: string)
    requires StepClass(before, after) != Safe
    ensures Get(Flatten(before, ""), k) != Get(Flatten(after, ""), k)
    ensures Classify(Get(Flatten(before, ""), k), Get(Flatten(after, ""), k)) == StepClass(before, after)
  {
    var ds := Diff(before, after);
    DiffReports(before, after);
    SummarizeIsMaximum(ds);
    var i :| 0 <= i < |ds| && ds[i].classification == Summarize(ds);
    k := ds[i].path;
  }

  lemma {:induction false} RequiredClass(o: Option<Schema>, n: Option<Schema>)
    requires o.Some? && RequiredOr(o.value, true) && o != n
    ensures Classify(o, n) != Breaking ==> n.Some? && KeptOrWidened(o.value, n.value)
  {
  }

  lemma {:induction false} PlainClass(o: Option<Schema>, n: Option<Schema>)
    requires o.Some? && PlainEntry(o.value) && (n.Some? ==> PlainEntry(n.value) || TypedEntry(n.value)) && o != n
    ensures Classify(o, n) != Safe
  {
  }

  lemma {:induction false} EntryKept(o: map<string, Schema>, n: map<string, Schema>, k: string, cls: Severity)
    requires k in o && RequiredOr(o[k], true) && cls != Breaking
    requires Get(o, k) != Get(n, k) ==> Rank(Classify(Get(o, k), Get(n, k))) <= Rank(cls)
    ensures k in n && KeptOrWidened(o[k], n[k])
  {
    if Get(o, k) != Get(n, k) { RequiredClass(Get(o, k), Get(n, k)); }
  }

  lemma {:induction false} EntrySame(o: map<string, Schema>, n: map<string, Schema>, k: string)
    requires k in o && PlainEntry(o[k]) && CanonicalEntries(n)
    requires Get(o, k) != Get(n, k) ==> Rank(Classify(Get(o, k), Get(n, k))) <= Rank(Safe)
    ensures k in n && n[k] == o[k]
  {
    if Get(o, k) != Get(n, k) { PlainClass(Get(o, k), Get(n, k)); }
  }

  /** One step that is not BREAKING keeps or widens every entry, if all of them say they are required. */
  lemma {:induction false} NonBreakingStep(before: Schema, after: Schema)
    requires SaysRequired(before) && StepClass(before, after) != Breaking
    ensures CompatibleSchemas(before, after)
  {
    var o, n, cls := Flatten(before, ""), Flatten(after, ""), StepClass(before, after);
    forall k | k in o ensures k in n && KeptOrWidened(o[k], n[k]) {
      if Get(o, k) != Get(n, k) { ItemAtMostSummary(before, after, k); }
      EntryKept(o, n, k, cls);
    }
  }

  /** A SAFE one keeps every entry as it is, if all of them are plain. */
  lemma {:induction false} SafeStep(before: Schema, after: Schema)
    requires PayloadSchema(before) && CanonicalSchema(after) && StepClass(before, after) == Safe
    ensures Contained(before, after)
  {
    var o, n := Flatten(before, ""), Flatten(after, "");
    forall k | k in o ensures k in n && n[k] == o[k] {
      if Get(o, k) != Get(n, k) { ItemAtMostSummary(before, after, k); }
      EntrySame(o, n, k);
    }
  }

  ghost predicate CompatibleSchemas(a: Schema, b: Schema) { Compatible(Flatten(a, ""), Flatten(b, "")) }

  ghost predicate Contained(a: Schema, b: Schema) { Submap(Flatten(a, ""), Flatten(b, "")) }

  lemma {:induction false} SelfCompatible(a: Schema)
    ensures CompatibleSchemas(a, a) && Contained(a, a)
  {
  }

  /** The class of version `k` against the version before it. */
  function ClassAt(chain: seq<Schema>, k: nat): Severity
    requires 0 < k < |chain|
  {
    StepClass(chain[k - 1], chain[k])
  }

  /** Whatever `rel` relates to version k-1 it relates to version k. */
  ghost predicate Carries(chain: seq<Schema>, k: nat, rel: (Schema, Schema) -> bool)
    requires 0 < k < |chain|
  {
    forall a :: rel(a, chain[k - 1]) ==> rel(a, chain[k])
  }

  lemma {:induction false} RelationComposes(chain: seq<Schema>, i: nat, j: nat, rel: (Schema, Schema) -> bool)
    requires i <= j < |chain| && rel(chain[i], chain[i])
    requires forall k | i < k <= j :: Carries(chain, k, rel)
    ensures rel(chain[i], chain[j])
    decreases j - i
  {
    if i < j {
      RelationComposes(chain, i, j - 1, rel);
      assert Carries(chain, j, rel);
    }
  }

  lemma {:induction false} CompatibleCarries(chain: seq<Schema>, k: nat)
    requires 0 < k < |chain| && SaysRequired(chain[k - 1]) && ClassAt(chain, k) != Breaking
    ensures Carries(chain, k, (a, b) => CompatibleSchemas(a, b))
  {
    NonBreakingStep(chain[k - 1], chain[k]);
    forall a | CompatibleSchemas(a, chain[k - 1]) ensures CompatibleSchemas(a, chain[k]) {
      CompatibleIsTransitive(Flatten(a, ""), Flatten(chain[k - 1], ""), Flatten(chain[k], ""));
    }
  }

  lemma {:induction false} CompatibleIsTransitive(a: map<string, Schema>, b: map<string, Schema>, c: map<string, Schema>)
    requires Compatible(a, b) && Compatible(b, c)
    ensures Compatible(a, c)
  {
    forall k | k in a ensures k in c && KeptOrWidened(a[k], c[k]) { assert k in b && KeptOrWidened(b[k], c[k]); }
  }

  lemma {:induction false} ContainedCarries(chain: seq<Schema>, k: nat)
    requires 0 < k < |chain| && PayloadSchema(chain[k - 1]) && CanonicalSchema(chain[k]) && ClassAt(chain, k) == Safe
    ensures Carries(chain, k, (a, b) => Contained(a, b))
  {
    SafeStep(chain[k - 1], chain[k]);
  }

  /** If no version after `i` up to `j` is BREAKING, every flat path of version
      `i` is still in version `j`, its type kept or widened. */
  lemma {:induction false} CompatibilityComposes(chain: seq<Schema>, i: nat, j: nat)
    requires i <= j < |chain|
    requires forall k | i <= k < j :: SaysRequired(chain[k])
    requires forall k | i < k <= j :: ClassAt(chain, k) != Breaking
    ensures CompatibleSchemas(chain[i], chain[j])
  {
    var rel := (a, b) => CompatibleSchemas(a, b);
    SelfCompatible(chain[i]);
    forall k | i < k <= j ensures Carries(chain, k, rel) { CompatibleCarries(chain, k); }
    RelationComposes(chain, i, j, rel);
  }

  /** If all of them are SAFE, version `i`'s flat schema is contained in version `j`'s. */
  lemma {:induction false} SafetyComposes(chain: seq<Schema>, i: nat, j: nat)
    requires i <= j < |chain|
    requires forall k | i <= k < j :: PayloadSchema(chain[k])
    requires forall k | i < k <= j :: CanonicalSchema(chain[k])
    requires forall k | i < k <= j :: ClassAt(chain, k) == Safe
    ensures Contained(chain[i], chain[j])
  {
    var rel := (a, b) => Contained(a, b);
    SelfCompatible(chain[i]);
    forall k | i < k <= j ensures Carries(chain, k, rel) { ContainedCarries(chain, k); }
    RelationComposes(chain, i, j, rel);
  }

  // ---- Where the conditions matter ----

  function OneField(k: string, v: J.Json): J.Json { J.Object([J.Field(k, v)]) }

  lemma {:induction false} CanonicalOneField(k: string, v: J.Json)
    ensures Canonicalize(OneField(k, v)) == Dict([Member(k, Canonicalize(v))])
  {
    var ms := CanonicalMembers([J.Field(k, v)]);
    assert ms == [Member(k, Canonicalize(v))];
    assert SortBy(ms[1..], MemberKey) == [];
  }

  lemma {:induction false} FlattenOneMember(m: Member, prefix: string)
    requires m.key != "type"
    ensures Flatten(Dict([m]), prefix) == Flatten(m.value, Extend(prefix, Key(m.key)))
  {
    var ms := [m];
    assert ms[0] == m && ms[1..] == [] && !Typed(ms);
    assert FlattenMembers(ms[1..], prefix) == map[];
  }

  /** With a dot in a key, two different payloads have an empty diff. */
  lemma {:induction false} DottedKeyHidesChange()
    ensures var v, w := OneField("a.b", J.Int(1)), OneField("a", OneField("b", J.Int(1)));
      Diff(Canonicalize(v), Canonicalize(w)) == [] && Canonicalize(v) != Canonicalize(w)
  {
    var v, w := OneField("a.b", J.Int(1)), OneField("a", OneField("b", J.Int(1)));
    var leaf := Scalar("integer", false);
    CanonicalOneField("a.b", J.Int(1));
    CanonicalOneField("a", OneField("b", J.Int(1)));
    CanonicalOneField("b", J.Int(1));
    FlattenOneMember(Member("a.b", leaf), "");
    FlattenOneMember(Member("b", leaf), "a");
    FlattenOneMember(Member("a", Dict([Member("b", leaf)])), "");
    assert Extend("", Key("a")) == "a" && Extend("a", Key("b")) == "a.b";
    DiffEmptyIffFlatEqual(Canonicalize(v), Canonicalize(w));
    assert Dict([Member("a.b", leaf)]).members[0].key != Dict([Member("a", Dict([Member("b", leaf)]))]).members[0].key;
  }

  /** `{"type": "s", "x": x}` */
  function TypedPair(x: J.Json): J.Json { J.Object([J.Field("type", J.Str("s")), J.Field("x", x)]) }

  lemma {:induction false} CanonicalTypedPair(x: J.Json)
    ensures Canonicalize(TypedPair(x)) == Dict([Member("type", Scalar("string", false)), Member("x", Canonicalize(x))])
  {
    var ms := CanonicalMembers(TypedPair(x).fields);
    assert ms == [Member("type", Scalar("string", false)), Member("x", Canonicalize(x))];
    assert AtMost("type", "x") by { assert "type"[0] < "x"[0]; }
    SortOfSorted(ms, MemberKey);
  }

  lemma {:induction false} TypedPairKeys(ms: seq<Member>)
    requires |ms| == 2 && ms[0] == Member("type", Scalar("string", false)) && ms[1].key == "x"
    ensures Typed(ms) && Find(ms, "type") == Scalar("string", false) && !HasKey(ms, "nullable")
  {
    assert ms[0].key == "type";
    assert |"type"| == 4 && |"x"| == 1 && |"nullable"| == 8;
  }

  lemma {:induction false} TypedPairFacts(x: J.Json)
    ensures var s := Canonicalize(TypedPair(x));
      s.Dict? && TypeOf(s) == Printed(Scalar("string", false)) && NullableOf(s).None? && Flatten(s, "") == map["[root]" := s]
  {
    CanonicalTypedPair(x);
    TypedPairKeys([Member("type", Scalar("string", false)), Member("x", Canonicalize(x))]);
  }

  /** Typed objects with the same type, of which neither speaks of null. */
  lemma {:induction false} TypedChangeIsSafe(o: Schema, n: Schema)
    requires o.Dict? && n.Dict? && TypeOf(o) == TypeOf(n) && NullableOf(o) == NullableOf(n)
    ensures ClassifyChange(o, n) == Safe
  {
  }

  /** A key named `type` makes its object one opaque entry: from `{"type": "s", "x": 1}` to
      `{"type": "s", "x": "s"}` a field changes its type and the class is SAFE. */
  lemma {:induction false} TypeKeyHidesBreakingChange()
    ensures var o, n := Canonicalize(TypedPair(J.Int(1))), Canonicalize(TypedPair(J.Str("s")));
      StepClass(o, n) == Safe && !Contained(o, n)
  {
    var o, n := Canonicalize(TypedPair(J.Int(1))), Canonicalize(TypedPair(J.Str("s")));
    CanonicalTypedPair(J.Int(1));
    CanonicalTypedPair(J.Str("s"));
    TypedPairFacts(J.Int(1));
    TypedPairFacts(J.Str("s"));
    assert o.members[1].value != n.members[1].value;
    TypedChangeIsSafe(o, n);
    if StepClass(o, n) != Safe {
      var k := SummaryIsOfAPath(o, n);
    }
  }
}
