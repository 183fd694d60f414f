/** Leaves of a schema in terms of the document alone: at the path of some keys and list items,
    the node is the leaf of the scalars that these lead to, in document order. */
module InferDocument {
  import opened Texts
  import opened Paths
  import opened SchemaInfer
  import opened InferOrder
  import opened InferLeaf
  import opened InferOptional
  import opened InferTypes
  import J = Json

  /** One step into a document: to the value of a key, or to all items of a list. */
  datatype Hop = Field(key: string) | Items

  predicate CleanHops(hops: seq<Hop>) { forall i | 0 <= i < |hops| :: hops[i].Field? ==> CleanKey(hops[i].key) }

  /** How the path reads: keys after dots, items as `[*]`. */
  function HopPath(parent: string, hops: seq<Hop>): string
    decreases |hops|
  {
    if hops == [] then parent
    else if hops[0].Items? then HopPath(parent + "[*]", hops[1..])
    else HopPath(if parent == "" then hops[0].key else parent + "." + hops[0].key, hops[1..])
  }

  /** The values the hops lead to, in document order. */
  function Reached(v: J.Json, hops: seq<Hop>): seq<J.Json>
    decreases |hops|, 0
  {
    if hops == [] then [v]
    else if hops[0].Items? then (if v.List? then ReachedFrom(v.items, hops[1..]) else [])
    else if v.Object? && J.FieldOf(v.fields, hops[0].key).Some? then Reached(J.FieldOf(v.fields, hops[0].key).value, hops[1..])
    else []
  }

  function ReachedFrom(items: seq<J.Json>, hops: seq<Hop>): seq<J.Json>
    decreases |hops|, 1, |items|
  {
    if items == [] then [] else Reached(items[0], hops) + ReachedFrom(items[1..], hops)
  }

  // ---- Updates without the notes ----

  /** The updates but for the notes that a key is lacking. */
  function Firm(us: seq<Update>): seq<Update> {
    if us == [] then [] else (if us[0].Optional? then [] else [us[0]]) + Firm(us[1..])
  }

  lemma {:induction false} FirmAppend(a: seq<Update>, b: seq<Update>)
    ensures Firm(a + b) == Firm(a) + Firm(b)
  {
    if a == [] {
      assert a + b == b;
    } else {
      assert (a + b)[0] == a[0] && (a + b)[1..] == a[1..] + b;
      FirmAppend(a[1..], b);
    }
  }

  function FirmAt(ops: seq<Op>, q: string): seq<Update> { Firm(At(ops, q)) }

  lemma {:induction false} FirmAtAppend(a: seq<Op>, b: seq<Op>, q: string)
    ensures FirmAt(a + b, q) == FirmAt(a, q) + FirmAt(b, q)
  {
    AtAppend(a, b, q);
    FirmAppend(At(a, q), At(b, q));
  }

  lemma {:induction false} FirmAtOne(path: string, u: Update, q: string)
    requires path != q
    ensures FirmAt([Op(path, u)], q) == []
  {
    AtOne(path, u, q);
  }

  /** Optional notes are all that a list of objects adds for its keys. */
  lemma {:induction false} NotesAreSoft(keys: seq<string>, counts: map<string, nat>, n: nat, path: string, q: string)
    ensures FirmAt(Optionals(keys, counts, n, path), q) == []
  {
    if keys != [] {
      NotesAreSoft(keys[1..], counts, n, path, q);
      if keys[0] in counts && counts[keys[0]] < n {
        AtOne(Join(path, keys[0]), Optional, q);
        assert [Optional][1..] == [];
        FirmAtAppend([Op(Join(path, keys[0]), Optional)], Optionals(keys[1..], counts, n, path), q);
      }
    }
  }

  lemma {:induction false} ObservationsAppend(a: seq<J.Json>, b: seq<J.Json>)
    ensures Observations(a + b) == Observations(a) + Observations(b)
  {
    if a == [] {
      assert a + b == b;
    } else {
      assert (a + b)[0] == a[0] && (a + b)[1..] == a[1..] + b;
      ObservationsAppend(a[1..], b);
    }
  }

  // ---- Paths of hops ----

  lemma {:induction false} HopPathUnder(parent: string, hops: seq<Hop>)
    requires parent != ""
    ensures Under(parent, HopPath(parent, hops)) && (hops != [] ==> |HopPath(parent, hops)| > |parent|)
    decreases |hops|
  {
    if hops != [] {
      var next := if hops[0].Items? then parent + "[*]" else parent + "." + hops[0].key;
      UnderJoin(parent, if hops[0].Field? then hops[0].key else "");
      HopPathUnder(next, hops[1..]);
      UnderTransitive(parent, next, HopPath(parent, hops));
    }
  }

  /** A path that goes on with a dot is under no list item, one that goes on with a bracket under no key. */
  lemma {:induction false} HopsPart(parent: string, k: string, q: string)
    requires parent != ""
    ensures !(Under(Join(parent, k), q) && Under(ArrayPath(parent), q))
  {
    assert Join(parent, k)[|parent|] == '.' && ArrayPath(parent)[|parent|] == '[';
    assert Under(Join(parent, k), q) ==> q[|parent|] == Join(parent, k)[|parent|];
    assert Under(ArrayPath(parent), q) ==> q[|parent|] == ArrayPath(parent)[|parent|];
  }

  // ---- The updates of the path are the values reached ----

  lemma {:induction false} FieldsReached(fs: seq<J.Field>, parent: string, hops: seq<Hop>)
    requires J.Valid(J.Object(fs)) && J.KeysSatisfy(J.Object(fs), CleanKey) && CleanHops(hops) && hops != [] && hops[0].Field?
    requires Scalars(Reached(J.Object(fs), hops))
    ensures FirmAt(EmitFields(fs, parent), HopPath(parent, hops)) == Observations(Reached(J.Object(fs), hops))
    decreases |hops|, 0, 0
  {
    var k, q := hops[0].key, HopPath(parent, hops);
    var path := Join(parent, k);
    HopPathUnder(path, hops[1..]);
    J.FieldOfFrom(fs, k);
    if J.FieldOf(fs, k).Some? {
      var i :| 0 <= i < |fs| && fs[i] == J.Field(k, J.FieldOf(fs, k).value);
      FieldsAt(fs, parent, q, i);
      EmitReached(path, fs[i].value, hops[1..]);
    } else {
      forall i | 0 <= i < |fs| ensures !Under(Join(parent, fs[i].key), q) {
        if Under(Join(parent, fs[i].key), q) { OneOwner(parent, k, fs[i].key, q); }
      }
      FieldsElsewhere(fs, parent, q);
    }
  }

  lemma {:induction false} FieldsNotItems(fs: seq<J.Field>, path: string, q: string)
    requires path != "" && CleanFields(fs) && Under(ArrayPath(path), q)
    ensures At(EmitFields(fs, path), q) == []
  {
    forall i | 0 <= i < |fs| ensures !Under(Join(path, fs[i].key), q) { HopsPart(path, fs[i].key, q); }
    FieldsElsewhere(fs, path, q);
  }

  /** The updates of a list at a path strictly below its own are those of its items. */
  lemma {:induction false} ListBelow(items: seq<J.Json>, path: string, q: string)
    requires path != "" && path != q
    ensures FirmAt(Emit(path, J.List(items)), q) ==
      if AllObjects(items) then FirmAt(EmitObjects(items, ArrayPath(path)), q) else FirmAt(EmitItems(items, ArrayPath(path)), q)
  {
    var under := ArrayPath(path);
    FirmAtOne(path, Ensure("array"), q);
    FirmAtAppend([Op(path, Ensure("array"))], WalkItems(items, path), q);
    if items == [] {
      FirmAtOne(path, ItemType("unknown"), q);
    } else if AllObjects(items) {
      ObjectsBelow(items, path, q);
    } else {
      FirmAtOne(path, ItemType(ArrayItemType(items)), q);
      FirmAtAppend(EmitItems(items, under), [Op(path, ItemType(ArrayItemType(items)))], q);
    }
  }

  lemma {:induction false} ObjectsBelow(items: seq<J.Json>, path: string, q: string)
    requires path != "" && path != q && items != [] && AllObjects(items)
    ensures FirmAt(WalkItems(items, path), q) == FirmAt(EmitObjects(items, ArrayPath(path)), q)
  {
    var under, t := ArrayPath(path), TallyItems(Tally([], map[]), items);
    var first, notes := [Op(path, ItemType("object"))], Optionals(t.keys, t.counts, |items|, under);
    FirmAtOne(path, ItemType("object"), q);
    NotesAreSoft(t.keys, t.counts, |items|, under, q);
    FirmAtAppend(first, EmitObjects(items, under), q);
    FirmAtAppend(first + EmitObjects(items, under), notes, q);
  }

  lemma {:induction false} ItemsElsewhere(items: seq<J.Json>, path: string, q: string)
    requires path != "" && path != q && !Under(ArrayPath(path), q)
    ensures FirmAt(Emit(path, J.List(items)), q) == []
  {
    ListBelow(items, path, q);
    if AllObjects(items) {
      ObjectsUnder(items, ArrayPath(path));
      NotUnderNoUpdates(EmitObjects(items, ArrayPath(path)), ArrayPath(path), q);
    } else {
      EmitItemsUnder(items, ArrayPath(path));
      NotUnderNoUpdates(EmitItems(items, ArrayPath(path)), ArrayPath(path), q);
    }
  }

  lemma {:induction false} NoHops(v: J.Json)
    requires Scalars(Reached(v, []))
    ensures Reached(v, []) == [v] && J.IsScalar(v)
  {
    assert J.IsScalar([v][0]);
  }

  lemma {:induction false} OneObservedFirmly(path: string, v: J.Json)
    requires J.IsScalar(v)
    ensures FirmAt(Emit(path, v), path) == Observations([v])
  {
    AtOne(path, Observe(v), path);
    assert [v][1..] == [] && Observations([v][1..]) == [] && Observations([v]) == [Observe(v)];
    assert [Observe(v)][1..] == [] && Firm([Observe(v)]) == [Observe(v)];
  }

  /** The firm updates of a value at the path of some hops observe, in order, the scalars reached. */
  lemma {:induction false} EmitReached(path: string, v: J.Json, hops: seq<Hop>)
    requires path != "" && J.Valid(v) && J.KeysSatisfy(v, CleanKey) && CleanHops(hops) && Scalars(Reached(v, hops))
    ensures FirmAt(Emit(path, v), HopPath(path, hops)) == Observations(Reached(v, hops))
    decreases |hops|, 1, 0
  {
    var q := HopPath(path, hops);
    HopPathUnder(path, hops);
    if hops == [] {
      NoHops(v);
      OneObservedFirmly(path, v);
    } else if J.IsScalar(v) {
      FirmAtOne(path, Observe(v), q);
    } else if hops[0].Field? {
      FieldHop(path, v, hops);
    } else {
      ItemsHop(path, v, hops);
    }
  }

  lemma {:induction false} FieldHop(path: string, v: J.Json, hops: seq<Hop>)
    requires path != "" && J.Valid(v) && J.KeysSatisfy(v, CleanKey) && CleanHops(hops) && Scalars(Reached(v, hops))
    requires hops != [] && hops[0].Field? && !J.IsScalar(v)
    ensures FirmAt(Emit(path, v), HopPath(path, hops)) == Observations(Reached(v, hops))
    decreases |hops|, 0, 1
  {
    var q := HopPath(path, hops);
    HopPathUnder(path, hops);
    HopPathUnder(Join(path, hops[0].key), hops[1..]);
    if v.Object? {
      EmitBelow(v.fields, path, q);
      FieldsReached(v.fields, path, hops);
    } else {
      HopsPart(path, hops[0].key, q);
      ItemsElsewhere(v.items, path, q);
    }
  }

  lemma {:induction false} ItemsHop(path: string, v: J.Json, hops: seq<Hop>)
    requires path != "" && J.Valid(v) && J.KeysSatisfy(v, CleanKey) && CleanHops(hops) && Scalars(Reached(v, hops))
    requires hops != [] && hops[0].Items? && !J.IsScalar(v)
    ensures FirmAt(Emit(path, v), HopPath(path, hops)) == Observations(Reached(v, hops))
    decreases |hops|, 0, 1
  {
    var q := HopPath(path, hops);
    HopPathUnder(path, hops);
    HopPathUnder(ArrayPath(path), hops[1..]);
    if v.Object? {
      EmitBelow(v.fields, path, q);
      FieldsNotItems(v.fields, path, q);
    } else {
      ListBelow(v.items, path, q);
      if AllObjects(v.items) { ObjectsReached(v.items, ArrayPath(path), hops[1..]); } else { EachReached(v.items, ArrayPath(path), hops[1..]); }
    }
  }

  lemma {:induction false} ScalarParts(a: seq<J.Json>, b: seq<J.Json>)
    requires Scalars(a + b)
    ensures Scalars(a) && Scalars(b)
  {
    forall i | 0 <= i < |a| ensures J.IsScalar(a[i]) { assert (a + b)[i] == a[i]; }
    forall i | 0 <= i < |b| ensures J.IsScalar(b[i]) { assert (a + b)[|a| + i] == b[i]; }
  }

  lemma {:induction false} EachReached(items: seq<J.Json>, path: string, hops: seq<Hop>)
    requires path != "" && CleanHops(hops) && Scalars(ReachedFrom(items, hops))
    requires forall i | 0 <= i < |items| :: J.Valid(items[i]) && J.KeysSatisfy(items[i], CleanKey)
    ensures FirmAt(EmitItems(items, path), HopPath(path, hops)) == Observations(ReachedFrom(items, hops))
    decreases |hops|, 2, |items|
  {
    if items != [] {
      var x, rest := Reached(items[0], hops), ReachedFrom(items[1..], hops);
      ScalarParts(x, rest);
      EmitReached(path, items[0], hops);
      EachReached(items[1..], path, hops);
      FirmAtAppend(Emit(path, items[0]), EmitItems(items[1..], path), HopPath(path, hops));
      ObservationsAppend(x, rest);
    }
  }

  lemma {:induction false} ObjectsReached(items: seq<J.Json>, path: string, hops: seq<Hop>)
    requires path != "" && CleanHops(hops) && AllObjects(items) && Scalars(ReachedFrom(items, hops))
    requires forall i | 0 <= i < |items| :: J.Valid(items[i]) && J.KeysSatisfy(items[i], CleanKey)
    ensures FirmAt(EmitObjects(items, path), HopPath(path, hops)) == Observations(ReachedFrom(items, hops))
    decreases |hops|, 2, |items|
  {
    if items != [] {
      var x, rest := Reached(items[0], hops), ReachedFrom(items[1..], hops);
      ScalarParts(x, rest);
      ObjectReached(items[0].fields, path, hops);
      ObjectsReached(items[1..], path, hops);
      FirmAtAppend(EmitFields(items[0].fields, path), EmitObjects(items[1..], path), HopPath(path, hops));
      ObservationsAppend(x, rest);
    }
  }

  lemma {:induction false} ObjectReached(fs: seq<J.Field>, path: string, hops: seq<Hop>)
    requires path != "" && CleanHops(hops) && Scalars(Reached(J.Object(fs), hops))
    requires J.Valid(J.Object(fs)) && J.KeysSatisfy(J.Object(fs), CleanKey)
    ensures FirmAt(EmitFields(fs, path), HopPath(path, hops)) == Observations(Reached(J.Object(fs), hops))
    decreases |hops|, 1, 0
  {
    if hops == [] {
      NoHops(J.Object(fs));
    } else if hops[0].Field? {
      FieldsReached(fs, path, hops);
    } else {
      HopPathUnder(ArrayPath(path), hops[1..]);
      FieldsNotItems(fs, path, HopPath(path, hops));
    }
  }

  // ---- The leaf ----

  lemma {:induction false} FirmLast(us: seq<Update>, u: Update)
    ensures Firm(us + [u]) == Firm(us) + (if u.Optional? then [] else [u])
  {
    FirmAppend(us, [u]);
    assert [u][1..] == [];
  }

  lemma {:induction false} ObservationsAt(vs: seq<J.Json>)
    ensures |Observations(vs)| == |vs| && forall i | 0 <= i < |vs| :: Observations(vs)[i] == Observe(vs[i])
  {
    if vs != [] { ObservationsAt(vs[1..]); }
  }

  lemma {:induction false} FirmIsLeaf(us: seq<Update>, vs: seq<J.Json>)
    requires Firm(us) == Observations(vs) && Scalars(vs)
    ensures LeafUpdates(us) && ValuesOf(us) == vs
  {
    ObservationsAt(vs);
    if us != [] {
      var n := |us| - 1;
      var before, u := us[..n], us[n];
      assert us == before + [u];
      FirmLast(before, u);
      if u.Optional? {
        FirmIsLeaf(before, vs);
        assert forall i | 0 <= i < n :: us[i] == before[i];
      } else {
        var m := |vs| - 1;
        assert Observations(vs)[m] == u;
        LastObserved(before, u, vs);
        FirmIsLeaf(before, vs[..m]);
        assert forall i | 0 <= i < n :: us[i] == before[i];
        assert vs == vs[..m] + [vs[m]];
      }
    } else {
      assert vs == [];
    }
  }

  lemma {:induction false} LastObserved(before: seq<Update>, u: Update, vs: seq<J.Json>)
    requires Firm(before) + [u] == Observations(vs)
    ensures |vs| > 0 && u == Observe(vs[|vs| - 1]) && Firm(before) == Observations(vs[..|vs| - 1])
  {
    ObservationsAt(vs);
    var m := |vs| - 1;
    assert vs == vs[..m] + [vs[m]];
    ObservationsGrow(vs[..m], vs[m]);
    assert (Firm(before) + [u])[..m] == Firm(before) && (Observations(vs[..m]) + [Observe(vs[m])])[..m] == Observations(vs[..m]) by {
      ObservationsAt(vs[..m]);
    }
  }

  /** For an object document with clean keys: wherever keys and list items lead to scalars
      alone, the schema has at that path exactly the leaf of those scalars: its type by their
      kinds, nullable exactly with a null among them, its sorted distinct strings when there
      are 1 to 10, the first value as example, and required unless some list of objects has
      the key in one object and lacks it in another. */
  lemma {:induction false} LeavesOfDocument(v: J.Json, hops: seq<Hop>)
    requires J.Valid(v) && J.KeysSatisfy(v, CleanKey) && v.Object? && CleanHops(hops) && hops != [] && hops[0].Field?
    requires Reached(v, hops) != [] && Scalars(Reached(v, hops))
    ensures exists n ::
      && n in Infer(v) && n.path == HopPath("", hops) && LeafSays(n, Reached(v, hops))
      && (n.required <==> !SomeLacks(v, "", HopPath("", hops)))
  {
    var q, vs := HopPath("", hops), Reached(v, hops);
    var us := At(Walk(v, ""), q);
    FieldsReached(v.fields, "", hops);
    assert [] + EmitFields(v.fields, "") == EmitFields(v.fields, "");
    FirmIsLeaf(us, vs);
    assert us != [] by { if us == [] { ObservationsAt(vs); } }
    LeafOfDocument(v, q, us);
    LeafIsSaid(q, vs);
    var n := Finalize(q, Streamed(vs).value).(required := !SomeLacks(v, "", q));
    assert n in Infer(v) && LeafSays(n, vs);
  }

  /** What a leaf says of its values. */
  ghost predicate LeafSays(n: Node, vs: seq<J.Json>) {
    && TypeMeans(n.typ, vs) && (n.nullable <==> exists i | 0 <= i < |vs| :: vs[i].Null?) && n.itemType.None?
    && n.enums == (if 1 <= |Strings(vs)| <= 10 then Some(SortedSet(Strings(vs))) else None)
    && ExampleSays(n.example, vs)
  }

  lemma {:induction false} LeafIsSaid(path: string, vs: seq<J.Json>)
    requires Scalars(vs) && vs != []
    ensures Streamed(vs).Some? && LeafSays(Finalize(path, Streamed(vs).value), vs)
  {
    FinishedLeaf(path, vs);
    StreamingIsBatch(vs);
    JoinMeans(vs);
    FirstExample(vs);
  }

  // ---- No other paths ----

  /** Some hops lead from `v`, which lies at `path`, to a value whose path is `q`. */
  ghost predicate Leads(v: J.Json, path: string, q: string) {
    exists hops :: CleanHops(hops) && q == HopPath(path, hops) && Reached(v, hops) != []
  }

  ghost predicate AllLead(ops: seq<Op>, v: J.Json, path: string) { forall i | 0 <= i < |ops| :: Leads(v, path, ops[i].path) }

  lemma {:induction false} AllLeadAppend(a: seq<Op>, b: seq<Op>, v: J.Json, path: string)
    requires AllLead(a, v, path) && AllLead(b, v, path)
    ensures AllLead(a + b, v, path)
  {
  }

  lemma {:induction false} SelfLeads(v: J.Json, path: string)
    ensures Leads(v, path, path)
  {
    assert CleanHops([]) && HopPath(path, []) == path && Reached(v, []) == [v];
  }

  lemma {:induction false} FieldLeads(v: J.Json, path: string, k: string, q: string)
    requires v.Object? && CleanKey(k) && J.FieldOf(v.fields, k).Some? && Leads(J.FieldOf(v.fields, k).value, Join(path, k), q)
    ensures Leads(v, path, q)
  {
    var hops :| CleanHops(hops) && q == HopPath(Join(path, k), hops) && Reached(J.FieldOf(v.fields, k).value, hops) != [];
    var all := [Field(k)] + hops;
    assert all[0] == Field(k) && all[1..] == hops;
    assert CleanHops(all) && HopPath(path, all) == q && Reached(v, all) != [];
  }

  lemma {:induction false} ReachedFromItem(items: seq<J.Json>, hops: seq<Hop>, i: nat)
    requires i < |items| && Reached(items[i], hops) != []
    ensures ReachedFrom(items, hops) != []
  {
    if i > 0 { ReachedFromItem(items[1..], hops, i - 1); }
  }

  lemma {:induction false} ItemLeads(items: seq<J.Json>, path: string, i: nat, q: string)
    requires i < |items| && Leads(items[i], path + "[*]", q)
    ensures Leads(J.List(items), path, q)
  {
    var hops :| CleanHops(hops) && q == HopPath(path + "[*]", hops) && Reached(items[i], hops) != [];
    var all := [Items] + hops;
    ReachedFromItem(items, hops, i);
    assert all[0] == Items && all[1..] == hops;
    assert CleanHops(all) && HopPath(path, all) == q && Reached(J.List(items), all) != [];
  }

  lemma {:induction false} DistinctField(fs: seq<J.Field>, i: nat)
    requires J.DistinctKeys(fs) && i < |fs|
    ensures J.FieldOf(fs, fs[i].key) == Some(fs[i].value)
  {
    J.FieldOfFrom(fs, fs[i].key);
  }

  /** Every update of a value is of a path that leads to a value in it. */
  lemma {:induction false} EmitLeads(path: string, v: J.Json)
    requires path != "" && J.Valid(v) && J.KeysSatisfy(v, CleanKey)
    ensures AllLead(Emit(path, v), v, path)
    decreases v, 2
  {
    SelfLeads(v, path);
    match v
    case Object(fs) =>
      FieldsLead(fs, |fs|, path);
      assert fs[..|fs|] == fs;
      AllLeadAppend([Op(path, Ensure("object"))], EmitFields(fs, path), v, path);
      AllLeadAppend([Op(path, Ensure("object"))], Walk(v, path), v, path);
    case List(items) =>
      ListLeads(items, path);
      AllLeadAppend([Op(path, Ensure("array"))], WalkItems(items, path), v, path);
    case _ =>
  }

  lemma {:induction false} EmitFieldsLast(fs: seq<J.Field>, n: nat, path: string)
    requires n < |fs|
    ensures EmitFields(fs[..n + 1], path) == EmitFields(fs[..n], path) + Emit(Join(path, fs[n].key), fs[n].value)
  {
    var first := fs[0];
    if n == 0 {
      assert fs[..1] == [first] && fs[..1][1..] == [] && fs[..0] == [];
    } else {
      EmitFieldsLast(fs[1..], n - 1, path);
      assert fs[..n + 1][1..] == fs[1..][..n] && fs[..n][1..] == fs[1..][..n - 1];
    }
  }

  lemma {:induction false} FieldsLead(fs: seq<J.Field>, n: nat, path: string)
    requires n <= |fs| && J.Valid(J.Object(fs)) && J.KeysSatisfy(J.Object(fs), CleanKey)
    requires forall i | 0 <= i < |fs| :: Join(path, fs[i].key) != ""
    ensures AllLead(EmitFields(fs[..n], path), J.Object(fs), path)
    decreases fs, 0, n
  {
    if n > 0 {
      var m := n - 1;
      FieldsLead(fs, m, path);
      EmitFieldsLast(fs, m, path);
      DistinctField(fs, m);
      var ops := Emit(Join(path, fs[m].key), fs[m].value);
      EmitLeads(Join(path, fs[m].key), fs[m].value);
      forall i | 0 <= i < |ops| ensures Leads(J.Object(fs), path, ops[i].path) { FieldLeads(J.Object(fs), path, fs[m].key, ops[i].path); }
      AllLeadAppend(EmitFields(fs[..m], path), ops, J.Object(fs), path);
    }
  }

  lemma {:induction false} ListLeads(items: seq<J.Json>, path: string)
    requires path != "" && J.Valid(J.List(items)) && J.KeysSatisfy(J.List(items), CleanKey)
    ensures AllLead(WalkItems(items, path), J.List(items), path)
    decreases items, 1
  {
    var v, under := J.List(items), path + "[*]";
    SelfLeads(v, path);
    if items != [] {
      if AllObjects(items) {
        var t := TallyItems(Tally([], map[]), items);
        var first, body, notes := [Op(path, ItemType("object"))], EmitObjects(items, under), Optionals(t.keys, t.counts, |items|, under);
        ObjectsLead(items, items, 0, path);
        NotesLead(items, path);
        AllLeadAppend(first, body, v, path);
        AllLeadAppend(first + body, notes, v, path);
      } else {
        EachLeads(items, items, 0, path);
        AllLeadAppend(EmitItems(items, under), [Op(path, ItemType(ArrayItemType(items)))], v, path);
      }
    }
  }

  lemma {:induction false} EachLeads(all: seq<J.Json>, items: seq<J.Json>, n: nat, path: string)
    requires n <= |all| && items == all[n..] && path != "" && J.Valid(J.List(all)) && J.KeysSatisfy(J.List(all), CleanKey)
    ensures AllLead(EmitItems(items, path + "[*]"), J.List(all), path)
    decreases items, 0
  {
    if items != [] {
      var under := path + "[*]";
      var ops := Emit(under, items[0]);
      EmitLeads(under, items[0]);
      forall i | 0 <= i < |ops| ensures Leads(J.List(all), path, ops[i].path) { ItemLeads(all, path, n, ops[i].path); }
      EachLeads(all, items[1..], n + 1, path);
      AllLeadAppend(ops, EmitItems(items[1..], under), J.List(all), path);
    }
  }

  lemma {:induction false} ObjectsLead(all: seq<J.Json>, items: seq<J.Json>, n: nat, path: string)
    requires n <= |all| && items == all[n..] && path != "" && AllObjects(all) && AllObjects(items)
    requires J.Valid(J.List(all)) && J.KeysSatisfy(J.List(all), CleanKey)
    ensures AllLead(EmitObjects(items, path + "[*]"), J.List(all), path)
    decreases items, 0
  {
    if items != [] {
      var under := path + "[*]";
      var fs := items[0].fields;
      var ops := EmitFields(fs, under);
      assert fs[..|fs|] == fs;
      FieldsLead(fs, |fs|, under);
      forall i | 0 <= i < |ops| ensures Leads(J.List(all), path, ops[i].path) {
        assert items[0] == J.Object(fs) == all[n];
        ItemLeads(all, path, n, ops[i].path);
      }
      ObjectsLead(all, items[1..], n + 1, path);
      AllLeadAppend(ops, EmitObjects(items[1..], under), J.List(all), path);
    }
  }

  lemma {:induction false} NotesLead(items: seq<J.Json>, path: string)
    requires path != "" && items != [] && AllObjects(items) && J.Valid(J.List(items)) && J.KeysSatisfy(J.List(items), CleanKey)
    requires AllLead(EmitObjects(items, path + "[*]"), J.List(items), path)
    ensures AllLead(OptionalsOf(items, path + "[*]"), J.List(items), path)
  {
    var under, ops := path + "[*]", OptionalsOf(items, path + "[*]");
    forall i | 0 <= i < |ops| ensures Leads(J.List(items), path, ops[i].path) {
      AtNonempty(ops, ops[i].path);
      OptionalsMark(items, under, ops[i].path);
      AtNonempty(EmitObjects(items, under), ops[i].path);
    }
  }

  lemma {:induction false} WalkLeads(v: J.Json)
    requires J.Valid(v) && J.KeysSatisfy(v, CleanKey) && v.Object?
    ensures AllLead(Walk(v, ""), v, "")
  {
    FieldsLead(v.fields, |v.fields|, "");
    assert v.fields[..|v.fields|] == v.fields && [] + EmitFields(v.fields, "") == EmitFields(v.fields, "");
  }

  lemma {:induction false} NodeHasUpdate(ops: seq<Op>, i: nat)
    requires i < |Nodes(ops)|
    ensures exists j | 0 <= j < |ops| :: ops[j].path == Nodes(ops)[i].path
  {
    NodesAt(ops, i);
    AtNonempty(ops, Nodes(ops)[i].path);
  }

  /** The schema of an object document with clean keys has nodes for paths that lead to some
      value in it, and for no others. */
  lemma {:induction false} NodesLead(v: J.Json, i: nat)
    requires J.Valid(v) && J.KeysSatisfy(v, CleanKey) && v.Object? && i < |Infer(v)|
    ensures Leads(v, "", Infer(v)[i].path)
  {
    WalkLeads(v);
    NodeHasUpdate(Walk(v, ""), i);
  }
}
