/** The runtime classifier: canonical schemas, flattening to a path-keyed
    dictionary, the path-by-path diff, and the class of each difference. */
module Classifier {
  import opened Texts
  import opened Paths
  import opened Severities
  import J = Json

  /** A schema tree. `Leaf` is a dictionary whose `type` is a plain name;
      `Dict` is any other dictionary. */
  datatype Schema =
    | Leaf(typ: string, nullable: Option<bool>, required: Option<bool>, allowed: Option<seq<string>>)
    | ListOf(items: seq<Schema>)
    | Dict(members: seq<Member>)

  datatype Member = Member(key: string, value: Schema)

  function MemberKey(m: Member): string { m.key }

  // ---- Canonicalisation ----

  function Scalar(typ: string, nullable: bool): Schema {
    Leaf(typ, Some(nullable), None, None)
  }

  function Canonicalize(v: J.Json): Schema
    decreases v, 1
  {
    match v
    case Object(fs) => Dict(SortBy(CanonicalMembers(fs), MemberKey))
    case List(items) => ListOf(CanonicalItems(items))
    case Null => Scalar("null", true)
    case Bool(_) => Scalar("boolean", false)
    case Int(_) => Scalar("integer", false)
    case Float(_) => Scalar("number", false)
    case Str(_) => Scalar("string", false)
  }

  function CanonicalMembers(fs: seq<J.Field>): (ms: seq<Member>)
    ensures |ms| == |fs|
    ensures forall i | 0 <= i < |fs| :: ms[i] == Member(fs[i].key, Canonicalize(fs[i].value))
    decreases fs, 0
  {
    if fs == [] then []
    else [Member(fs[0].key, Canonicalize(fs[0].value))] + CanonicalMembers(fs[1..])
  }

  function CanonicalItems(items: seq<J.Json>): (ss: seq<Schema>)
    ensures |ss| == |items|
    ensures forall i | 0 <= i < |items| :: ss[i] == Canonicalize(items[i])
    decreases items, 0
  {
    if items == [] then [] else [Canonicalize(items[0])] + CanonicalItems(items[1..])
  }

  // ---- Reading a dictionary ----

  predicate HasKey(ms: seq<Member>, k: string) {
    exists i | 0 <= i < |ms| :: ms[i].key == k
  }

  function Find(ms: seq<Member>, k: string): (s: Schema)
    requires HasKey(ms, k)
    ensures exists i | 0 <= i < |ms| :: ms[i] == Member(k, s)
  {
    if ms[0].key == k then ms[0].value else Find(ms[1..], k)
  }

  predicate Typed(ms: seq<Member>) { HasKey(ms, "type") }

  ghost predicate DistinctKeys(ms: seq<Member>) {
    forall i, j | 0 <= i < j < |ms| :: ms[i].key != ms[j].key
  }

  lemma {:induction false} FindAt(ms: seq<Member>, i: nat)
    requires DistinctKeys(ms) && i < |ms|
    ensures HasKey(ms, ms[i].key) && Find(ms, ms[i].key) == ms[i].value
  {
    var s := Find(ms, ms[i].key);
    var j :| 0 <= j < |ms| && ms[j] == Member(ms[i].key, s);
  }

  /** Every dictionary that flattening opens has distinct, clean keys. */
  ghost predicate Clean(s: Schema) {
    match s
    case Leaf(_, _, _, _) => true
    case ListOf(items) => forall i | 0 <= i < |items| :: Clean(items[i])
    case Dict(ms) =>
      Typed(ms) ||
      (DistinctKeys(ms) && forall i | 0 <= i < |ms| :: CleanKey(ms[i].key) && Clean(ms[i].value))
  }

  // ---- Flattening ----

  const ARRAY_ENTRY: Schema := Scalar("array", false)

  function Flatten(s: Schema, prefix: string): map<string, Schema>
    decreases s, 1
  {
    match s
    case Leaf(_, _, _, _) => map[Slot(prefix) := s]
    case Dict(ms) => if Typed(ms) then map[Slot(prefix) := s] else FlattenMembers(ms, prefix)
    case ListOf(items) => map[Slot(prefix) := ARRAY_ENTRY] + FlattenItems(items, prefix, 0)
  }

  function FlattenMembers(ms: seq<Member>, prefix: string): map<string, Schema>
    decreases ms, 0
  {
    if ms == [] then map[]
    else Flatten(ms[0].value, Extend(prefix, Key(ms[0].key))) + FlattenMembers(ms[1..], prefix)
  }

  function FlattenItems(items: seq<Schema>, prefix: string, base: nat): map<string, Schema>
    decreases items, 0
  {
    if items == [] then map[]
    else Flatten(items[0], Extend(prefix, Index(base))) + FlattenItems(items[1..], prefix, base + 1)
  }

  /** The meaning of a flat entry: what the schema tree shows at a path. */
  function At(s: Schema, p: Path): Option<Schema>
    decreases p
  {
    match s
    case Leaf(_, _, _, _) => if p.End? then Some(s) else None
    case ListOf(items) =>
      if p.End? then Some(ARRAY_ENTRY)
      else if p.step.Index? && p.step.i < |items| then At(items[p.step.i], p.rest)
      else None
    case Dict(ms) =>
      if Typed(ms) then (if p.End? then Some(s) else None)
      else if p.Then? && p.step.Key? && HasKey(ms, p.step.k) then At(Find(ms, p.step.k), p.rest)
      else None
  }

  /** Every flat entry is what the tree shows at the path its key renders. */
  lemma {:induction false} FlattenSound(s: Schema, prefix: string, slot: string) returns (p: Path)
    requires Clean(s) && slot in Flatten(s, prefix)
    ensures CleanPath(p) && slot == Slot(Render(prefix, p))
    ensures At(s, p) == Some(Flatten(s, prefix)[slot])
    decreases s, 1
  {
    p := End;
    if s.Dict? && !Typed(s.members) {
      var k;
      k, p := FlattenMembersSound(s.members, prefix, slot);
      p := Then(Key(k), p);
    } else if s.ListOf? && slot in FlattenItems(s.items, prefix, 0) {
      var i;
      i, p := FlattenItemsSound(s.items, prefix, 0, slot);
      p := Then(Index(i), p);
    }
  }

  lemma {:induction false} FlattenMembersSound(ms: seq<Member>, prefix: string, slot: string) returns (k: string, p: Path)
    requires DistinctKeys(ms) && slot in FlattenMembers(ms, prefix)
    requires forall i | 0 <= i < |ms| :: CleanKey(ms[i].key) && Clean(ms[i].value)
    ensures CleanPath(p) && CleanKey(k) && HasKey(ms, k) && slot == Slot(Render(Extend(prefix, Key(k)), p))
    ensures At(Find(ms, k), p) == Some(FlattenMembers(ms, prefix)[slot])
    decreases ms, 0
  {
    if slot in FlattenMembers(ms[1..], prefix) {
      k, p := FlattenMembersSound(ms[1..], prefix, slot);
      var i :| 0 <= i < |ms[1..]| && ms[1..][i].key == k;
      assert ms[i + 1].key == k;
    } else {
      k := ms[0].key;
      p := FlattenSound(ms[0].value, Extend(prefix, Key(k)), slot);
    }
  }

  lemma {:induction false} FlattenItemsSound(items: seq<Schema>, prefix: string, base: nat, slot: string) returns (i: nat, p: Path)
    requires slot in FlattenItems(items, prefix, base)
    requires forall j | 0 <= j < |items| :: Clean(items[j])
    ensures CleanPath(p) && base <= i < base + |items| && slot == Slot(Render(Extend(prefix, Index(i)), p))
    ensures At(items[i - base], p) == Some(FlattenItems(items, prefix, base)[slot])
    decreases items, 0
  {
    SlotOfItem(items, prefix, base, slot);
    var rest := items[1..];
    if slot in FlattenItems(rest, prefix, base + 1) {
      assert forall j | 0 <= j < |rest| :: rest[j] == items[j + 1];
      i, p := FlattenItemsSound(rest, prefix, base + 1, slot);
    } else {
      i := base;
      p := FlattenSound(items[0], Extend(prefix, Index(i)), slot);
    }
  }

  lemma {:induction false} SlotOfItem(items: seq<Schema>, prefix: string, base: nat, slot: string)
    requires slot in FlattenItems(items, prefix, base)
    ensures items != []
    ensures var first, rest := Flatten(items[0], Extend(prefix, Index(base))), FlattenItems(items[1..], prefix, base + 1);
      if slot in rest then FlattenItems(items, prefix, base)[slot] == rest[slot]
      else slot in first && FlattenItems(items, prefix, base)[slot] == first[slot]
  {
  }

  /** Two steps from one prefix never lead to one slot. */
  lemma {:induction false} StepsApart(prefix: string, s: Step, p: Path, t: Step, q: Path)
    requires CleanStep(s) && CleanStep(t) && CleanPath(p) && CleanPath(q) && s != t
    ensures Slot(Render(Extend(prefix, s), p)) != Slot(Render(Extend(prefix, t), q))
  {
    if Slot(Render(Extend(prefix, s), p)) == Slot(Render(Extend(prefix, t), q)) {
      SlotInjective(prefix, Then(s, p), Then(t, q));
    }
  }

  lemma {:induction false} StepLeavesSlot(prefix: string, s: Step, p: Path)
    requires CleanStep(s) && CleanPath(p)
    ensures Slot(Render(Extend(prefix, s), p)) != Slot(prefix)
  {
    if Slot(Render(Extend(prefix, s), p)) == Slot(prefix) {
      SlotInjective(prefix, Then(s, p), End);
    }
  }

  /** Everything the tree shows is in the flat dictionary, under its rendered path. */
  lemma {:induction false} FlattenComplete(s: Schema, prefix: string, p: Path)
    requires Clean(s) && At(s, p).Some?
    ensures CleanPath(p) && Slot(Render(prefix, p)) in Flatten(s, prefix)
    ensures Flatten(s, prefix)[Slot(Render(prefix, p))] == At(s, p).value
    decreases s, 1
  {
    if p.End? {
      if s.ListOf? && Slot(prefix) in FlattenItems(s.items, prefix, 0) {
        var i, r := FlattenItemsSound(s.items, prefix, 0, Slot(prefix));
        StepLeavesSlot(prefix, Index(i), r);
      }
    } else if s.ListOf? {
      FlattenItemsComplete(s.items, prefix, 0, p.step.i, p.rest);
    } else {
      FlattenMembersComplete(s.members, prefix, p.step.k, p.rest);
    }
  }

  lemma {:induction false} FlattenMembersComplete(ms: seq<Member>, prefix: string, k: string, p: Path)
    requires DistinctKeys(ms) && HasKey(ms, k) && At(Find(ms, k), p).Some?
    requires forall i | 0 <= i < |ms| :: CleanKey(ms[i].key) && Clean(ms[i].value)
    ensures CleanPath(p) && CleanKey(k) && Slot(Render(Extend(prefix, Key(k)), p)) in FlattenMembers(ms, prefix)
    ensures FlattenMembers(ms, prefix)[Slot(Render(Extend(prefix, Key(k)), p))] == At(Find(ms, k), p).value
    decreases ms, 0
  {
    var slot := Slot(Render(Extend(prefix, Key(k)), p));
    if ms[0].key != k {
      FlattenMembersComplete(ms[1..], prefix, k, p);
    } else {
      FlattenComplete(ms[0].value, Extend(prefix, Key(k)), p);
      if slot in FlattenMembers(ms[1..], prefix) {
        var k', p' := FlattenMembersSound(ms[1..], prefix, slot);
        StepsApart(prefix, Key(k), p, Key(k'), p');
      }
    }
  }

  lemma {:induction false} FlattenItemsComplete(items: seq<Schema>, prefix: string, base: nat, i: nat, p: Path)
    requires i < |items| && At(items[i], p).Some?
    requires forall j | 0 <= j < |items| :: Clean(items[j])
    ensures CleanPath(p) && Slot(Render(Extend(prefix, Index(base + i)), p)) in FlattenItems(items, prefix, base)
    ensures FlattenItems(items, prefix, base)[Slot(Render(Extend(prefix, Index(base + i)), p))] == At(items[i], p).value
    decreases items, 0
  {
    var slot := Slot(Render(Extend(prefix, Index(base + i)), p));
    if i > 0 {
      FlattenItemsComplete(items[1..], prefix, base + 1, i - 1, p);
    } else {
      FlattenComplete(items[0], Extend(prefix, Index(base)), p);
      if slot in FlattenItems(items[1..], prefix, base + 1) {
        var i', p' := FlattenItemsSound(items[1..], prefix, base + 1, slot);
        StepsApart(prefix, Index(base), p, Index(i'), p');
      }
    }
  }
}
