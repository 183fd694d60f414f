/** Canonical payload schemas: when the diff between two of them is empty, and
    how compatibility composes along a chain of versions. */
module Compatibility {
  import opened Texts
  import opened Paths
  import opened Severities
  import opened Classifier
  import opened Drift
  import J = Json

  // ---- Canonical schemas ----

  predicate NotType(k: string) { k != "type" }

  /** Sorted members everywhere, as `canonicalize` leaves them. */
  ghost predicate Ordered(s: Schema) {
    match s
    case Leaf(_, _, _, _) => true
    case ListOf(items) => forall i | 0 <= i < |items| :: Ordered(items[i])
    case Dict(ms) => SortedBy(ms, MemberKey) && KeysApart(ms, MemberKey) && forall i | 0 <= i < |ms| :: Ordered(ms[i].value)
  }

  /** A leaf as `canonicalize` writes it: a scalar type, nullable exactly for null. */
  predicate PlainLeaf(s: Schema) {
    && s.Leaf? && s.required.None? && s.allowed.None?
    && s.typ in {"null", "boolean", "integer", "number", "string"}
    && s.nullable == Some(s.typ == "null")
  }

  ghost predicate PlainLeaves(s: Schema) {
    match s
    case Leaf(_, _, _, _) => PlainLeaf(s)
    case ListOf(items) => forall i | 0 <= i < |items| :: PlainLeaves(items[i])
    case Dict(ms) => forall i | 0 <= i < |ms| :: PlainLeaves(ms[i].value)
  }

  ghost predicate Untyped(s: Schema) {
    match s
    case Leaf(_, _, _, _) => true
    case ListOf(items) => forall i | 0 <= i < |items| :: Untyped(items[i])
    case Dict(ms) => !Typed(ms) && forall i | 0 <= i < |ms| :: Untyped(ms[i].value)
  }

  /** No hollow dictionary strictly below a dictionary or list. */
  ghost predicate Solid(s: Schema) {
    match s
    case Leaf(_, _, _, _) => true
    case ListOf(items) => forall i | 0 <= i < |items| :: Solid(items[i]) && !Hollow(items[i])
    case Dict(ms) => forall i | 0 <= i < |ms| :: Solid(ms[i].value) && !Hollow(ms[i].value)
  }

  /** A canonical dictionary's members come from the object's members. */
  lemma {:induction false} MemberOrigin(fs: seq<J.Field>, ms: seq<Member>, i: nat) returns (j: nat)
    requires ms == SortBy(CanonicalMembers(fs), MemberKey) && i < |ms|
    ensures j < |fs| && ms[i] == Member(fs[j].key, Canonicalize(fs[j].value))
  {
    j := SortOrigin(CanonicalMembers(fs), MemberKey, i);
  }

  lemma {:induction false} RawMembersApart(fs: seq<J.Field>)
    requires J.DistinctKeys(fs)
    ensures KeysApart(CanonicalMembers(fs), MemberKey)
  {
  }

  lemma {:induction false} MembersApart(fs: seq<J.Field>, ms: seq<Member>)
    requires J.DistinctKeys(fs) && ms == SortBy(CanonicalMembers(fs), MemberKey)
    ensures SortedBy(ms, MemberKey) && KeysApart(ms, MemberKey) && DistinctKeys(ms)
  {
    RawMembersApart(fs);
    PermutationKeepsKeysApart(CanonicalMembers(fs), ms, MemberKey);
    forall i, j | 0 <= i < j < |ms| ensures ms[i].key != ms[j].key {
      assert MemberKey(ms[i]) != MemberKey(ms[j]);
    }
  }

  lemma {:induction false} CanonicalIsOrdered(v: J.Json)
    requires J.Valid(v)
    ensures Ordered(Canonicalize(v))
    decreases v
  {
    match v
    case List(items) =>
      forall i | 0 <= i < |items| ensures Ordered(Canonicalize(items[i])) { CanonicalIsOrdered(items[i]); }
    case Object(fs) =>
      var ms := Canonicalize(v).members;
      forall i | 0 <= i < |ms| ensures Ordered(ms[i].value) {
        var j := MemberOrigin(fs, ms, i);
        CanonicalIsOrdered(fs[j].value);
      }
      MembersApart(fs, ms);
    case _ =>
  }

  lemma {:induction false} CanonicalIsPlain(v: J.Json)
    ensures PlainLeaves(Canonicalize(v))
    decreases v
  {
    match v
    case List(items) =>
      forall i | 0 <= i < |items| ensures PlainLeaves(Canonicalize(items[i])) { CanonicalIsPlain(items[i]); }
    case Object(fs) =>
      var ms := Canonicalize(v).members;
      forall i | 0 <= i < |ms| ensures PlainLeaves(ms[i].value) {
        var j := MemberOrigin(fs, ms, i);
        CanonicalIsPlain(fs[j].value);
      }
    case _ =>
  }

  lemma {:induction false} CanonicalIsClean(v: J.Json)
    requires J.Valid(v) && J.KeysSatisfy(v, CleanKey)
    ensures Clean(Canonicalize(v))
    decreases v
  {
    match v
    case List(items) =>
      forall i | 0 <= i < |items| ensures Clean(Canonicalize(items[i])) { CanonicalIsClean(items[i]); }
    case Object(fs) =>
      var ms := Canonicalize(v).members;
      forall i | 0 <= i < |ms| ensures Clean(ms[i].value) && CleanKey(ms[i].key) {
        var j := MemberOrigin(fs, ms, i);
        CanonicalIsClean(fs[j].value);
      }
      MembersApart(fs, ms);
    case _ =>
  }

  lemma {:induction false} CanonicalIsUntyped(v: J.Json)
    requires J.KeysSatisfy(v, NotType)
    ensures Untyped(Canonicalize(v))
    decreases v
  {
    match v
    case List(items) =>
      forall i | 0 <= i < |items| ensures Untyped(Canonicalize(items[i])) { CanonicalIsUntyped(items[i]); }
    case Object(fs) =>
      var ms := Canonicalize(v).members;
      forall i | 0 <= i < |ms| ensures Untyped(ms[i].value) && ms[i].key != "type" {
        var j := MemberOrigin(fs, ms, i);
        CanonicalIsUntyped(fs[j].value);
      }
    case _ =>
  }

  lemma {:induction false} PlainHasNoArrayLeaf(s: Schema)
    requires PlainLeaves(s)
    ensures NoArrayLeaf(s)
    decreases s
  {
    match s
    case Leaf(_, _, _, _) =>
    case ListOf(items) => forall i | 0 <= i < |items| ensures NoArrayLeaf(items[i]) { PlainHasNoArrayLeaf(items[i]); }
    case Dict(ms) => forall i | 0 <= i < |ms| ensures NoArrayLeaf(ms[i].value) { PlainHasNoArrayLeaf(ms[i].value); }
  }

  // ---- When flattening loses nothing ----

  /** Every object nested below the root of `v` has at least one member. */
  ghost predicate NestedNonempty(v: J.Json) {
    match v
    case List(items) => forall i | 0 <= i < |items| :: items[i] != J.Object([]) && NestedNonempty(items[i])
    case Object(fs) => forall i | 0 <= i < |fs| :: fs[i].value != J.Object([]) && NestedNonempty(fs[i].value)
    case _ => true
  }

  lemma {:induction false} NonemptyIsSolid(v: J.Json)
    requires NestedNonempty(v)
    ensures Solid(Canonicalize(v)) && (v != J.Object([]) ==> !Hollow(Canonicalize(v)))
    decreases v
  {
    match v
    case List(items) =>
      forall i | 0 <= i < |items| ensures Solid(Canonicalize(items[i])) && !Hollow(Canonicalize(items[i])) {
        NonemptyIsSolid(items[i]);
      }
    case Object(fs) =>
      var ms := Canonicalize(v).members;
      forall i | 0 <= i < |ms| ensures Solid(ms[i].value) && !Hollow(ms[i].value) {
        var j := MemberOrigin(fs, ms, i);
        NonemptyIsSolid(fs[j].value);
      }
      assert fs != [] ==> !Hollow(ms[0].value);
    case _ =>
  }

  lemma {:induction false} SolidMembersShared(a: Schema, b: Schema, i: nat)
    requires a.Dict? && b.Dict? && !Typed(a.members) && !Typed(b.members) && SameVisible(a, b)
    requires Solid(a) && i < |a.members|
    ensures HasKey(b.members, a.members[i].key)
    ensures SameVisible(a.members[i].value, Find(b.members, a.members[i].key))
  {
  }

  lemma {:induction false} SolidItem(s: Schema, i: nat)
    requires s.ListOf? && Solid(s) && i < |s.items|
    ensures !Hollow(s.items[i])
  {
  }

  lemma {:induction false} ExtraItemHollow(a: Schema, b: Schema, i: nat)
    requires a.ListOf? && b.ListOf? && SameVisible(a, b) && |a.items| <= i < |b.items|
    ensures Hollow(b.items[i])
  {
  }

  lemma {:induction false} MissingItemHollow(a: Schema, b: Schema, i: nat)
    requires a.ListOf? && b.ListOf? && SameVisible(a, b) && |b.items| <= i < |a.items|
    ensures Hollow(a.items[i])
  {
  }

  lemma {:induction false} SolidSameLength(a: Schema, b: Schema)
    requires a.ListOf? && b.ListOf? && Solid(a) && Solid(b) && SameVisible(a, b)
    ensures |a.items| == |b.items|
  {
    if |a.items| < |b.items| {
      SolidItem(b, |a.items|);
      ExtraItemHollow(a, b, |a.items|);
    } else if |a.items| > |b.items| {
      SolidItem(a, |b.items|);
      MissingItemHollow(a, b, |b.items|);
    }
  }

  /** Two solid, ordered schemas that look the same are the same. */
  lemma {:induction false} SolidSameVisibleEqual(a: Schema, b: Schema)
    requires Ordered(a) && Ordered(b) && Solid(a) && Solid(b) && SameVisible(a, b)
    ensures a == b
    decreases a
  {
    if a.ListOf? && b.ListOf? {
      SolidSameLength(a, b);
      forall i | 0 <= i < |a.items| ensures a.items[i] == b.items[i] {
        SolidSameVisibleEqual(a.items[i], b.items[i]);
      }
      assert a.items == b.items;
    } else if a.Dict? && b.Dict? && !Typed(a.members) && !Typed(b.members) {
      SolidMembersEqual(a, b);
    }
  }

  lemma {:induction false} SolidMembersEqual(a: Schema, b: Schema)
    requires a.Dict? && b.Dict? && !Typed(a.members) && !Typed(b.members)
    requires Ordered(a) && Ordered(b) && Solid(a) && Solid(b) && SameVisible(a, b)
    ensures a == b
    decreases a, 0
  {
    var x, y := a.members, b.members;
    forall i | 0 <= i < |x| ensures x[i] in y {
      SolidMembersShared(a, b, i);
      var j :| 0 <= j < |y| && y[j] == Member(x[i].key, Find(y, x[i].key));
      SolidSameVisibleEqual(x[i].value, y[j].value);
    }
    forall j | 0 <= j < |y| ensures y[j] in x {
      assert HasKey(x, y[j].key);
      var i :| 0 <= i < |x| && x[i].key == y[j].key;
      assert x[i] in y;
      SameKeySame(y, MemberKey, x[i], y[j]);
    }
    SortedApartUnique(x, y, MemberKey);
  }

  lemma {:induction false} SameVisibleReflexive(s: Schema)
    requires Clean(s)
    ensures SameVisible(s, s)
    decreases s
  {
    if s.ListOf? {
      forall i | 0 <= i < |s.items| ensures SameVisible(s.items[i], s.items[i]) { SameVisibleReflexive(s.items[i]); }
    } else if s.Dict? && !Typed(s.members) {
      var ms := s.members;
      forall i | 0 <= i < |ms| ensures HasKey(ms, ms[i].key) && SameVisible(ms[i].value, Find(ms, ms[i].key)) {
        FindAt(ms, i);
        SameVisibleReflexive(ms[i].value);
      }
    }
  }

  /** For payloads with clean keys and no nested empty object the diff is empty
      exactly when the canonical schemas are equal. */
  lemma {:induction false} DiffEmptyIffEqual(v: J.Json, w: J.Json)
    requires J.Valid(v) && J.Valid(w) && J.KeysSatisfy(v, CleanKey) && J.KeysSatisfy(w, CleanKey)
    requires NestedNonempty(v) && NestedNonempty(w)
    ensures Diff(Canonicalize(v), Canonicalize(w)) == [] <==> Canonicalize(v) == Canonicalize(w)
  {
    var a, b := Canonicalize(v), Canonicalize(w);
    CanonicalIsOrdered(v);
    CanonicalIsOrdered(w);
    CanonicalIsPlain(v);
    CanonicalIsPlain(w);
    PlainHasNoArrayLeaf(a);
    PlainHasNoArrayLeaf(b);
    CanonicalIsClean(v);
    CanonicalIsClean(w);
    NonemptyIsSolid(v);
    NonemptyIsSolid(w);
    DiffEmptyIffSameVisible(a, b);
    if a == b {
      SameVisibleReflexive(a);
    } else if SameVisible(a, b) {
      SolidSameVisibleEqual(a, b);
    }
  }

  // ---- Keys in another order ----

  /** The same schema with the keys of its dictionaries in any order, as a database column
      may give it back. */
  ghost predicate Reordered(a: Schema, b: Schema) {
    match a
    case Leaf(_, _, _, _) => b == a
    case ListOf(items) => b.ListOf? && |b.items| == |items| && forall i | 0 <= i < |items| :: Reordered(items[i], b.items[i])
    case Dict(ms) =>
      && b.Dict? && DistinctKeys(b.members)
      && (forall i | 0 <= i < |ms| :: HasKey(b.members, ms[i].key) && Reordered(ms[i].value, Find(b.members, ms[i].key)))
      && (forall j | 0 <= j < |b.members| :: HasKey(ms, b.members[j].key))
  }

  lemma {:induction false} ReorderedMember(a: Schema, b: Schema, j: nat) returns (i: nat)
    requires Reordered(a, b) && a.Dict? && j < |b.members|
    ensures i < |a.members| && a.members[i].key == b.members[j].key && Reordered(a.members[i].value, b.members[j].value)
  {
    assert HasKey(a.members, b.members[j].key);
    i :| 0 <= i < |a.members| && a.members[i].key == b.members[j].key;
    FindAt(b.members, j);
  }

  lemma {:induction false} ReorderedIsClean(a: Schema, b: Schema)
    requires Reordered(a, b) && Clean(a) && Untyped(a)
    ensures Clean(b)
    decreases a
  {
    if a.ListOf? {
      forall i | 0 <= i < |b.items| ensures Clean(b.items[i]) { ReorderedIsClean(a.items[i], b.items[i]); }
    } else if a.Dict? {
      forall j | 0 <= j < |b.members| ensures CleanKey(b.members[j].key) && Clean(b.members[j].value) {
        var i := ReorderedMember(a, b, j);
        ReorderedIsClean(a.members[i].value, b.members[j].value);
      }
    }
  }

  lemma {:induction false} ReorderedLooksSame(a: Schema, b: Schema)
    requires Reordered(a, b) && Untyped(a)
    ensures SameVisible(a, b)
    decreases a
  {
    if a.ListOf? {
      forall i | 0 <= i < |a.items| ensures SameVisible(a.items[i], b.items[i]) { ReorderedLooksSame(a.items[i], b.items[i]); }
    } else if a.Dict? {
      forall i | 0 <= i < |a.members| ensures SameVisible(a.members[i].value, Find(b.members, a.members[i].key)) {
        ReorderedLooksSame(a.members[i].value, Find(b.members, a.members[i].key));
      }
    }
  }

  /** Without a key `type` the order of keys does not matter to the diff. */
  lemma {:induction false} OrderIsNoDifference(v: J.Json, copy: Schema, after: Schema)
    requires J.Valid(v) && J.KeysSatisfy(v, CleanKey) && J.KeysSatisfy(v, NotType) && Reordered(Canonicalize(v), copy)
    ensures Diff(copy, after) == Diff(Canonicalize(v), after)
  {
    CanonicalIsClean(v);
    CanonicalIsUntyped(v);
    ReorderedIsClean(Canonicalize(v), copy);
    ReorderedLooksSame(Canonicalize(v), copy);
    SameVisibleFlattensAlike(Canonicalize(v), copy);
  }
}
