/** The diff between two schemas: what it reports, what it cannot see, and how
    its classes compose along a chain of versions. */
module Drift {
  import opened Texts
  import opened Paths
  import opened Severities
  import opened Classifier
  import J = Json

  // ---- Classes of one difference ----

  /** `str` of a schema's `type`: a plain name, or the print of a nested schema. */
  datatype TypeName = Named(name: string) | Printed(node: Schema)

  function TypeOf(s: Schema): TypeName {
    match s
    case Leaf(t, _, _, _) => Named(t)
    case ListOf(_) => Named("array")
    case Dict(ms) => if Typed(ms) then Printed(Find(ms, "type")) else Named("object")
  }

  /** Python's `bool` on a schema tree. */
  predicate Truthy(s: Schema) {
    match s
    case Leaf(_, _, _, _) => true
    case ListOf(items) => items != []
    case Dict(ms) => ms != []
  }

  function NullableOf(s: Schema): Option<bool> {
    match s
    case Leaf(_, n, _, _) => n
    case ListOf(_) => None
    case Dict(ms) => if HasKey(ms, "nullable") then Some(Truthy(Find(ms, "nullable"))) else None
  }

  function RequiredOr(s: Schema, default: bool): bool {
    match s
    case Leaf(_, _, r, _) => if r.Some? then r.value else default
    case ListOf(_) => false
    case Dict(ms) => if HasKey(ms, "required") then Truthy(Find(ms, "required")) else default
  }

  function AllowedOf(s: Schema): Option<set<string>> {
    if s.Leaf? && s.allowed.Some? then Some(set x | x in s.allowed.value) else None
  }

  function ClassifyChange(before: Schema, after: Schema): Severity {
    if TypeOf(before) != TypeOf(after) then
      if TypeOf(before) == Named("integer") && TypeOf(after) == Named("number") then Risky else Breaking
    else if NullableOf(before) == Some(false) && NullableOf(after) == Some(true) then BackwardCompatible
    else if NullableOf(before) == Some(true) && NullableOf(after) == Some(false) then Breaking
    else
      var o, n := AllowedOf(before), AllowedOf(after);
      if o.Some? && n.Some? && o.value < n.value then ForwardCompatible
      else if o.Some? && n.Some? && n.value < o.value then Breaking
      else Safe
  }

  function Classify(before: Option<Schema>, after: Option<Schema>): Severity
    requires before.Some? || after.Some?
  {
    if before.None? then (if RequiredOr(after.value, false) then ForwardCompatible else Safe)
    else if after.None? then (if RequiredOr(before.value, true) then Breaking else Risky)
    else ClassifyChange(before.value, after.value)
  }

  /** What is tolerated in one direction breaks in the other: a change of a field that is
      RISKY, BACKWARD_COMPATIBLE or FORWARD_COMPATIBLE is BREAKING when it is undone. */
  lemma {:induction false} WideningBreaksInReverse(o: Schema, n: Schema)
    requires ClassifyChange(o, n) != Safe
    ensures ClassifyChange(o, n) != Breaking ==> ClassifyChange(n, o) == Breaking
    ensures ClassifyChange(o, n) == Breaking && TypeOf(o) == TypeOf(n) ==> ClassifyChange(n, o) in {BackwardCompatible, ForwardCompatible}
  {
    var a, b := AllowedOf(o), AllowedOf(n);
    if a.Some? && b.Some? { assert !(a.value < b.value && b.value < a.value); }
  }

  /** An added field is never BREAKING; to remove it again is RISKY when it says it is not
      required, and BREAKING when it says it is or says nothing. */
  lemma {:induction false} AddedThenRemoved(n: Schema)
    ensures Classify(None, Some(n)) in {Safe, ForwardCompatible}
    ensures Classify(None, Some(n)) == ForwardCompatible ==> Classify(Some(n), None) == Breaking
    ensures n.Leaf? ==> (Classify(Some(n), None) == Risky <==> n.required == Some(false))
  {
  }

  /** Of two leaves alike in type and nullability that list values, the one that gains some
      is FORWARD_COMPATIBLE, the one that loses some BREAKING; any other change is SAFE. */
  lemma {:induction false} ListedValuesClass(o: Schema, n: Schema)
    requires o.Leaf? && n.Leaf? && o.typ == n.typ && o.nullable == n.nullable
    ensures var a, b := AllowedOf(o), AllowedOf(n);
      && (ClassifyChange(o, n) == ForwardCompatible <==> a.Some? && b.Some? && a.value < b.value)
      && (ClassifyChange(o, n) == Breaking <==> a.Some? && b.Some? && b.value < a.value)
      && ClassifyChange(o, n) in {Safe, ForwardCompatible, Breaking}
  {
  }

  // ---- The diff ----

  datatype DiffItem = DiffItem(
    path: string,
    oldType: Option<TypeName>, newType: Option<TypeName>,
    oldNullable: Option<bool>, newNullable: Option<bool>,
    classification: Severity)

  function Get(m: map<string, Schema>, k: string): Option<Schema> {
    if k in m then Some(m[k]) else None
  }

  function ItemFor(path: string, before: Option<Schema>, after: Option<Schema>): DiffItem
    requires before != after
  {
    DiffItem(path,
      if before.Some? then Some(TypeOf(before.value)) else None,
      if after.Some? then Some(TypeOf(after.value)) else None,
      if before.Some? then NullableOf(before.value) else None,
      if after.Some? then NullableOf(after.value) else None,
      Classify(before, after))
  }

  function DiffAlong(paths: seq<string>, before: map<string, Schema>, after: map<string, Schema>): seq<DiffItem> {
    if paths == [] then []
    else
      var o, n := Get(before, paths[0]), Get(after, paths[0]);
      (if o == n then [] else [ItemFor(paths[0], o, n)]) + DiffAlong(paths[1..], before, after)
  }

  function Diff(before: Schema, after: Schema): seq<DiffItem> {
    var o, n := Flatten(before, ""), Flatten(after, "");
    DiffAlong(SortedSet(o.Keys + n.Keys), o, n)
  }

  /** The diff has an item for the path. */
  ghost predicate Lists(ds: seq<DiffItem>, path: string) {
    exists i | 0 <= i < |ds| :: ds[i].path == path
  }

  /** Every item is about a path of the universe where the two sides differ, and says what they are there. */
  ghost predicate ItemsTrue(ds: seq<DiffItem>, before: map<string, Schema>, after: map<string, Schema>) {
    forall i | 0 <= i < |ds| ::
      && Get(before, ds[i].path) != Get(after, ds[i].path)
      && ds[i] == ItemFor(ds[i].path, Get(before, ds[i].path), Get(after, ds[i].path))
  }

  ghost predicate InPathOrder(ds: seq<DiffItem>) {
    forall i, j | 0 <= i < j < |ds| :: AtMost(ds[i].path, ds[j].path) && ds[i].path != ds[j].path
  }

  lemma {:induction false} DiffAlongItems(paths: seq<string>, before: map<string, Schema>, after: map<string, Schema>)
    ensures var ds := DiffAlong(paths, before, after);
      ItemsTrue(ds, before, after) && forall i | 0 <= i < |ds| :: ds[i].path in paths
  {
    if paths != [] {
      DiffAlongItems(paths[1..], before, after);
    }
  }

  lemma {:induction false} DiffAlongCovers(paths: seq<string>, before: map<string, Schema>, after: map<string, Schema>, k: string)
    requires k in paths && Get(before, k) != Get(after, k)
    ensures Lists(DiffAlong(paths, before, after), k)
  {
    var ds := DiffAlong(paths, before, after);
    if paths[0] == k {
      assert ds[0].path == k;
    } else {
      DiffAlongCovers(paths[1..], before, after, k);
      var rest := DiffAlong(paths[1..], before, after);
      var i :| 0 <= i < |rest| && rest[i].path == k;
      assert ds[|ds| - |rest| + i] == rest[i];
    }
  }

  lemma {:induction false} DiffAlongOrdered(paths: seq<string>, before: map<string, Schema>, after: map<string, Schema>)
    requires StrictlySorted(paths)
    ensures InPathOrder(DiffAlong(paths, before, after))
  {
    if paths != [] {
      DiffAlongOrdered(paths[1..], before, after);
      DiffAlongItems(paths[1..], before, after);
    }
  }

  /** The diff lists exactly the paths at which the two flat schemas differ, once each and in path order. */
  lemma {:induction false} DiffReports(before: Schema, after: Schema)
    ensures ItemsTrue(Diff(before, after), Flatten(before, ""), Flatten(after, ""))
    ensures InPathOrder(Diff(before, after))
    ensures forall k :: Get(Flatten(before, ""), k) != Get(Flatten(after, ""), k) <==> Lists(Diff(before, after), k)
  {
    var o, n := Flatten(before, ""), Flatten(after, "");
    var paths := SortedSet(o.Keys + n.Keys);
    DiffAlongItems(paths, o, n);
    DiffAlongOrdered(paths, o, n);
    forall k ensures Get(o, k) != Get(n, k) <==> Lists(Diff(before, after), k) {
      if Get(o, k) != Get(n, k) {
        assert k in o.Keys + n.Keys;
        DiffAlongCovers(paths, o, n, k);
      }
    }
  }

  lemma {:induction false} SameGetsSameMap(o: map<string, Schema>, n: map<string, Schema>)
    requires forall k :: Get(o, k) == Get(n, k)
    ensures o == n
  {
    forall k ensures (k in o <==> k in n) && (k in o ==> o[k] == n[k]) {
      assert Get(o, k) == Get(n, k);
    }
  }

  lemma {:induction false} DiffEmptyIffFlatEqual(before: Schema, after: Schema)
    ensures Diff(before, after) == [] <==> Flatten(before, "") == Flatten(after, "")
  {
    DiffReports(before, after);
    var ds, o, n := Diff(before, after), Flatten(before, ""), Flatten(after, "");
    if ds == [] {
      forall k ensures Get(o, k) == Get(n, k) {
        assert !Lists(ds, k);
      }
      SameGetsSameMap(o, n);
    } else {
      assert Get(o, ds[0].path) != Get(n, ds[0].path);
    }
  }

  // ---- What flattening can see ----

  /** An untyped dictionary with no visible entry below it. */
  predicate Hollow(s: Schema) {
    s.Dict? && !Typed(s.members) && forall i | 0 <= i < |s.members| :: Hollow(s.members[i].value)
  }

  /** Two schemas that differ at most in hollow dictionaries. */
  predicate SameVisible(a: Schema, b: Schema)
    decreases a
  {
    if a.ListOf? && b.ListOf? then
      && (forall i | 0 <= i < |a.items| ::
            if i < |b.items| then SameVisible(a.items[i], b.items[i]) else Hollow(a.items[i]))
      && (forall i | |a.items| <= i < |b.items| :: Hollow(b.items[i]))
    else if a.Dict? && b.Dict? && !Typed(a.members) && !Typed(b.members) then
      && (forall i | 0 <= i < |a.members| ::
            if HasKey(b.members, a.members[i].key)
            then SameVisible(a.members[i].value, Find(b.members, a.members[i].key))
            else Hollow(a.members[i].value))
      && (forall i | 0 <= i < |b.members| :: HasKey(a.members, b.members[i].key) || Hollow(b.members[i].value))
    else a == b
  }

  /** No leaf can be mistaken for the entry that stands for a list. */
  ghost predicate NoArrayLeaf(s: Schema) {
    match s
    case Leaf(t, _, _, _) => t != "array"
    case ListOf(items) => forall i | 0 <= i < |items| :: NoArrayLeaf(items[i])
    case Dict(ms) => forall i | 0 <= i < |ms| :: NoArrayLeaf(ms[i].value)
  }

  lemma {:induction false} HollowShowsNothing(s: Schema, p: Path)
    requires Hollow(s)
    ensures At(s, p).None?
    decreases p
  {
    if p.Then? && p.step.Key? && HasKey(s.members, p.step.k) {
      HollowShowsNothing(Find(s.members, p.step.k), p.rest);
    }
  }

  lemma {:induction false} SolidShowsSomething(s: Schema) returns (p: Path)
    requires Clean(s) && !Hollow(s)
    ensures At(s, p).Some?
    decreases s
  {
    p := End;
    if s.Dict? && !Typed(s.members) {
      var i :| 0 <= i < |s.members| && !Hollow(s.members[i].value);
      FindAt(s.members, i);
      p := SolidShowsSomething(s.members[i].value);
      p := Then(Key(s.members[i].key), p);
    }
  }

  lemma {:induction false} SameVisibleShowsSame(a: Schema, b: Schema, p: Path)
    requires Clean(a) && Clean(b) && SameVisible(a, b)
    ensures At(a, p) == At(b, p)
    decreases p
  {
    if a == b || p.End? {
    } else if a.ListOf? {
      if p.step.Index? {
        var i := p.step.i;
        if i < |a.items| && i < |b.items| {
          SameVisibleShowsSame(a.items[i], b.items[i], p.rest);
        } else if i < |a.items| {
          HollowShowsNothing(a.items[i], p.rest);
        } else if i < |b.items| {
          HollowShowsNothing(b.items[i], p.rest);
        }
      }
    } else if p.step.Key? {
      var k := p.step.k;
      if HasKey(a.members, k) {
        var i :| 0 <= i < |a.members| && a.members[i].key == k;
        FindAt(a.members, i);
        if HasKey(b.members, k) {
          SameVisibleShowsSame(a.members[i].value, Find(b.members, k), p.rest);
        } else {
          HollowShowsNothing(a.members[i].value, p.rest);
        }
      } else if HasKey(b.members, k) {
        var i :| 0 <= i < |b.members| && b.members[i].key == k;
        FindAt(b.members, i);
        HollowShowsNothing(b.members[i].value, p.rest);
      }
    }
  }

  lemma {:induction false} DifferenceShows(a: Schema, b: Schema) returns (p: Path)
    requires Clean(a) && Clean(b) && NoArrayLeaf(a) && NoArrayLeaf(b) && !SameVisible(a, b)
    ensures At(a, p) != At(b, p)
    decreases a
  {
    p := End;
    if a.ListOf? && b.ListOf? {
      p := ListDifferenceShows(a, b);
    } else if a.Dict? && b.Dict? && !Typed(a.members) && !Typed(b.members) {
      p := DictDifferenceShows(a, b);
    }
  }

  lemma {:induction false} DictDifferenceShows(a: Schema, b: Schema) returns (p: Path)
    requires a.Dict? && b.Dict? && !Typed(a.members) && !Typed(b.members)
    requires Clean(a) && Clean(b) && NoArrayLeaf(a) && NoArrayLeaf(b) && !SameVisible(a, b)
    ensures At(a, p) != At(b, p)
    decreases a, 0
  {
    if i :| 0 <= i < |a.members| && !(if HasKey(b.members, a.members[i].key)
          then SameVisible(a.members[i].value, Find(b.members, a.members[i].key))
          else Hollow(a.members[i].value)) {
      var k := a.members[i].key;
      FindAt(a.members, i);
      if HasKey(b.members, k) {
        p := DifferenceShows(a.members[i].value, Find(b.members, k));
      } else {
        p := SolidShowsSomething(a.members[i].value);
      }
      p := Then(Key(k), p);
    } else {
      var i :| 0 <= i < |b.members| && !HasKey(a.members, b.members[i].key) && !Hollow(b.members[i].value);
      FindAt(b.members, i);
      p := SolidShowsSomething(b.members[i].value);
      p := Then(Key(b.members[i].key), p);
    }
  }

  lemma {:induction false} ListDifferenceShows(a: Schema, b: Schema) returns (p: Path)
    requires a.ListOf? && b.ListOf?
    requires Clean(a) && Clean(b) && NoArrayLeaf(a) && NoArrayLeaf(b) && !SameVisible(a, b)
    ensures At(a, p) != At(b, p)
    decreases a, 0
  {
    var i: nat;
    if j :| 0 <= j < |a.items| && !(if j < |b.items| then SameVisible(a.items[j], b.items[j]) else Hollow(a.items[j])) {
      i := j;
      if i < |b.items| {
        p := DifferenceShows(a.items[i], b.items[i]);
      } else {
        p := SolidShowsSomething(a.items[i]);
      }
    } else {
      i :| |a.items| <= i < |b.items| && !Hollow(b.items[i]);
      p := SolidShowsSomething(b.items[i]);
    }
    p := Then(Index(i), p);
  }

  /** Equal flat dictionaries are equal readings at every path. */
  lemma {:induction false} FlatEqualShowsSame(a: Schema, b: Schema, p: Path)
    requires Clean(a) && Clean(b) && Flatten(a, "") == Flatten(b, "")
    ensures At(a, p) == At(b, p)
  {
    if At(a, p).Some? {
      FlattenComplete(a, "", p);
      var p' := FlattenSound(b, "", Slot(Render("", p)));
      SlotInjective("", p, p');
    } else if At(b, p).Some? {
      FlattenComplete(b, "", p);
      var p' := FlattenSound(a, "", Slot(Render("", p)));
      SlotInjective("", p, p');
    }
  }

  lemma {:induction false} SameVisibleFlattensInto(a: Schema, b: Schema, slot: string)
    requires Clean(a) && Clean(b) && SameVisible(a, b) && slot in Flatten(a, "")
    ensures slot in Flatten(b, "") && Flatten(b, "")[slot] == Flatten(a, "")[slot]
  {
    var p := FlattenSound(a, "", slot);
    SameVisibleShowsSame(a, b, p);
    FlattenComplete(b, "", p);
  }

  lemma {:induction false} SameVisibleFlattensFrom(a: Schema, b: Schema, slot: string)
    requires Clean(a) && Clean(b) && SameVisible(a, b) && slot in Flatten(b, "")
    ensures slot in Flatten(a, "")
  {
    var p := FlattenSound(b, "", slot);
    SameVisibleShowsSame(a, b, p);
    FlattenComplete(a, "", p);
  }

  lemma {:induction false} SameVisibleFlattensAlike(a: Schema, b: Schema)
    requires Clean(a) && Clean(b) && SameVisible(a, b)
    ensures Flatten(a, "") == Flatten(b, "")
  {
    var o, n := Flatten(a, ""), Flatten(b, "");
    forall slot ensures (slot in o <==> slot in n) && (slot in o ==> n[slot] == o[slot]) {
      if slot in o {
        SameVisibleFlattensInto(a, b, slot);
      } else if slot in n {
        SameVisibleFlattensFrom(a, b, slot);
      }
    }
  }

  /** The diff is empty exactly when the schemas differ at most in hollow dictionaries. */
  lemma {:induction false} DiffEmptyIffSameVisible(a: Schema, b: Schema)
    requires Clean(a) && Clean(b) && NoArrayLeaf(a) && NoArrayLeaf(b)
    ensures Diff(a, b) == [] <==> SameVisible(a, b)
  {
    DiffEmptyIffFlatEqual(a, b);
    if SameVisible(a, b) {
      SameVisibleFlattensAlike(a, b);
    } else if Flatten(a, "") == Flatten(b, "") {
      var p := DifferenceShows(a, b);
      FlatEqualShowsSame(a, b, p);
    }
  }
}
