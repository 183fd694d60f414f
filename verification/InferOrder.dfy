/** Reordering the keys of any object at any depth does not change the inferred
    schema: with clean keys, the updates of different keys touch different paths. */
module InferOrder {
  import opened Texts
  import opened Paths
  import opened SchemaInfer
  import J = Json

  // ---- The same document up to key order ----

  predicate HasKey(fs: seq<J.Field>, k: string) { exists i | 0 <= i < |fs| :: fs[i].key == k }

  ghost predicate SameUpToOrder(v: J.Json, w: J.Json)
    decreases v
  {
    match v
    case Object(fs) =>
      && w.Object? && J.DistinctKeys(fs) && J.DistinctKeys(w.fields)
      && (forall i | 0 <= i < |fs| :: HasKey(w.fields, fs[i].key))
      && (forall j | 0 <= j < |w.fields| :: HasKey(fs, w.fields[j].key))
      && (forall i, j | 0 <= i < |fs| && 0 <= j < |w.fields| && w.fields[j].key == fs[i].key ::
            SameUpToOrder(fs[i].value, w.fields[j].value))
    case List(items) =>
      && w.List? && |w.items| == |items|
      && (forall i | 0 <= i < |items| :: SameUpToOrder(items[i], w.items[i]))
    case _ => v == w
  }

  // ---- Which key a path belongs to ----

  /** `q` is the path `c` or continues it. */
  predicate Under(c: string, q: string) {
    |c| <= |q| && q[..|c|] == c && (|q| > |c| ==> q[|c|] in SEPARATORS)
  }

  lemma {:induction false} UnderTransitive(a: string, b: string, q: string)
    requires Under(a, b) && Under(b, q)
    ensures Under(a, q)
  {
    assert q[..|a|] == q[..|b|][..|a|];
    assert |b| > |a| ==> q[|a|] == b[|a|];
  }

  lemma {:induction false} UnderJoin(parent: string, k: string)
    requires parent != ""
    ensures Under(parent, Join(parent, k)) && Under(parent, ArrayPath(parent))
  {
    assert Join(parent, k)[..|parent|] == parent && Join(parent, k)[|parent|] == '.';
    assert ArrayPath(parent)[..|parent|] == parent && ArrayPath(parent)[|parent|] == '[';
  }

  /** A path lies under the child path of at most one clean key. */
  lemma {:induction false} OneOwner(parent: string, k: string, l: string, q: string)
    requires CleanKey(k) && CleanKey(l) && Under(Join(parent, k), q) && Under(Join(parent, l), q)
    ensures k == l
  {
    var head := if parent != "" then parent + "." else "";
    assert Join(parent, k) == head + k && Join(parent, l) == head + l;
    var rest := q[|head|..];
    var x, y := q[|head + k|..], q[|head + l|..];
    assert q[..|head + k|] == head + k && q[..|head + l|] == head + l;
    assert q == (head + k) + x && q == (head + l) + y;
    assert rest == k + x && rest == l + y;
    HeadSplits(k, x, l, y);
  }

  // ---- Updates stay under their path ----

  ghost predicate AllUnder(ops: seq<Op>, c: string) { forall i | 0 <= i < |ops| :: Under(c, ops[i].path) }

  lemma {:induction false} AllUnderAppend(a: seq<Op>, b: seq<Op>, c: string)
    requires AllUnder(a, c) && AllUnder(b, c)
    ensures AllUnder(a + b, c)
  {
  }

  lemma {:induction false} AllUnderOuter(ops: seq<Op>, c: string, outer: string)
    requires AllUnder(ops, c) && Under(outer, c)
    ensures AllUnder(ops, outer)
  {
    forall i | 0 <= i < |ops| ensures Under(outer, ops[i].path) { UnderTransitive(outer, c, ops[i].path); }
  }

  lemma {:induction false} WalkUnder(v: J.Json, parent: string)
    requires parent != ""
    ensures AllUnder(Walk(v, parent), parent)
    decreases v, 2
  {
    match v
    case Object(fs) =>
      FieldsUnder(fs, parent);
      AllUnderAppend([Op(parent, Ensure("object"))], EmitFields(fs, parent), parent);
    case List(items) =>
      ItemsUnder(items, parent);
      AllUnderAppend([Op(parent, Ensure("array"))], WalkItems(items, parent), parent);
    case _ =>
  }

  lemma {:induction false} ItemsUnder(items: seq<J.Json>, parent: string)
    requires parent != ""
    ensures AllUnder(WalkItems(items, parent), parent)
    decreases items, 1
  {
    if items != [] {
      var path := ArrayPath(parent);
      UnderJoin(parent, "");
      if AllObjects(items) {
        var tally := TallyItems(Tally([], map[]), items);
        var head, body, tail := [Op(parent, ItemType("object"))], EmitObjects(items, path), Optionals(tally.keys, tally.counts, |items|, path);
        ObjectsUnder(items, path);
        OptionalsUnder(tally.keys, tally.counts, |items|, path);
        AllUnderOuter(body, path, parent);
        AllUnderOuter(tail, path, parent);
        AllUnderAppend(head, body, parent);
        AllUnderAppend(head + body, tail, parent);
      } else {
        EmitItemsUnder(items, path);
        AllUnderOuter(EmitItems(items, path), path, parent);
        AllUnderAppend(EmitItems(items, path), [Op(parent, ItemType(ArrayItemType(items)))], parent);
      }
    }
  }

  lemma {:induction false} EmitUnder(path: string, v: J.Json)
    requires path != ""
    ensures AllUnder(Emit(path, v), path)
    decreases v, 3
  {
    match v
    case Object(fs) =>
      WalkUnder(v, path);
      AllUnderAppend([Op(path, Ensure("object"))], Walk(v, path), path);
    case List(items) => WalkUnder(v, path);
    case _ =>
  }

  lemma {:induction false} FieldsUnder(fs: seq<J.Field>, parent: string)
    requires parent != ""
    ensures AllUnder(EmitFields(fs, parent), parent)
    decreases fs, 0
  {
    if fs != [] {
      var path := Join(parent, fs[0].key);
      UnderJoin(parent, fs[0].key);
      EmitUnder(path, fs[0].value);
      AllUnderOuter(Emit(path, fs[0].value), path, parent);
      FieldsUnder(fs[1..], parent);
      AllUnderAppend(Emit(path, fs[0].value), EmitFields(fs[1..], parent), parent);
    }
  }

  lemma {:induction false} ObjectsUnder(items: seq<J.Json>, path: string)
    requires AllObjects(items) && path != ""
    ensures AllUnder(EmitObjects(items, path), path)
    decreases items, 0
  {
    if items != [] {
      FieldsUnder(items[0].fields, path);
      ObjectsUnder(items[1..], path);
      AllUnderAppend(EmitFields(items[0].fields, path), EmitObjects(items[1..], path), path);
    }
  }

  lemma {:induction false} EmitItemsUnder(items: seq<J.Json>, path: string)
    requires path != ""
    ensures AllUnder(EmitItems(items, path), path)
    decreases items, 0
  {
    if items != [] {
      EmitUnder(path, items[0]);
      EmitItemsUnder(items[1..], path);
      AllUnderAppend(Emit(path, items[0]), EmitItems(items[1..], path), path);
    }
  }

  lemma {:induction false} OptionalsUnder(keys: seq<string>, counts: map<string, nat>, n: nat, path: string)
    requires path != ""
    ensures AllUnder(Optionals(keys, counts, n, path), path)
  {
    if keys != [] {
      UnderJoin(path, keys[0]);
      OptionalsUnder(keys[1..], counts, n, path);
    }
  }

  lemma {:induction false} NotUnderNoUpdates(ops: seq<Op>, c: string, q: string)
    requires AllUnder(ops, c) && !Under(c, q)
    ensures At(ops, q) == []
  {
    AtNonempty(ops, q);
  }

  // ---- The updates of one path in an object ----

  ghost predicate CleanFields(fs: seq<J.Field>) { forall i | 0 <= i < |fs| :: CleanKey(fs[i].key) }

  lemma {:induction false} EmitElsewhere(parent: string, f: J.Field, q: string)
    requires CleanKey(f.key) && !Under(Join(parent, f.key), q)
    ensures At(Emit(Join(parent, f.key), f.value), q) == []
  {
    EmitUnder(Join(parent, f.key), f.value);
    NotUnderNoUpdates(Emit(Join(parent, f.key), f.value), Join(parent, f.key), q);
  }

  lemma {:induction false} FieldsElsewhere(fs: seq<J.Field>, parent: string, q: string)
    requires CleanFields(fs) && forall i | 0 <= i < |fs| :: !Under(Join(parent, fs[i].key), q)
    ensures At(EmitFields(fs, parent), q) == []
  {
    if fs != [] {
      EmitElsewhere(parent, fs[0], q);
      FieldsElsewhere(fs[1..], parent, q);
      AtAppend(Emit(Join(parent, fs[0].key), fs[0].value), EmitFields(fs[1..], parent), q);
    }
  }

  /** Only the field that owns a path updates it. */
  lemma {:induction false} FieldsAt(fs: seq<J.Field>, parent: string, q: string, i: nat)
    requires CleanFields(fs) && J.DistinctKeys(fs) && i < |fs| && Under(Join(parent, fs[i].key), q)
    ensures At(EmitFields(fs, parent), q) == At(Emit(Join(parent, fs[i].key), fs[i].value), q)
  {
    AtAppend(Emit(Join(parent, fs[0].key), fs[0].value), EmitFields(fs[1..], parent), q);
    if i == 0 {
      forall j | 0 <= j < |fs[1..]| ensures !Under(Join(parent, fs[1..][j].key), q) {
        if Under(Join(parent, fs[j + 1].key), q) { OneOwner(parent, fs[0].key, fs[j + 1].key, q); }
      }
      FieldsElsewhere(fs[1..], parent, q);
      assert At(Emit(Join(parent, fs[0].key), fs[0].value), q) + [] == At(Emit(Join(parent, fs[0].key), fs[0].value), q);
    } else {
      if Under(Join(parent, fs[0].key), q) { OneOwner(parent, fs[0].key, fs[i].key, q); }
      EmitElsewhere(parent, fs[0], q);
      FieldsAt(fs[1..], parent, q, i - 1);
    }
  }

  // ---- Which keys are optional ----

  function Count(items: seq<J.Json>, k: string): nat
    requires AllObjects(items)
  {
    if items == [] then 0 else (if HasKey(items[0].fields, k) then 1 else 0) + Count(items[1..], k)
  }

  ghost predicate TallyOk(t: Tally) {
    && (forall i, j | 0 <= i < j < |t.keys| :: t.keys[i] != t.keys[j])
    && (forall k :: k in t.keys <==> k in t.counts)
    && (forall k | k in t.counts :: t.counts[k] > 0)
  }

  function CountOf(t: Tally, k: string): nat { if k in t.counts then t.counts[k] else 0 }

  lemma {:induction false} CountedOk(t: Tally, k: string)
    requires TallyOk(t)
    ensures TallyOk(Counted(t, k))
    ensures forall l :: CountOf(Counted(t, k), l) == CountOf(t, l) + (if l == k then 1 else 0)
  {
  }

  lemma {:induction false} HasKeyTail(fs: seq<J.Field>, k: string)
    requires fs != []
    ensures HasKey(fs, k) <==> fs[0].key == k || HasKey(fs[1..], k)
  {
    if HasKey(fs, k) {
      var i :| 0 <= i < |fs| && fs[i].key == k;
      assert i > 0 ==> fs[1..][i - 1] == fs[i];
    }
    assert forall i | 0 <= i < |fs[1..]| :: fs[1..][i] == fs[i + 1];
  }

  lemma {:induction false} TallyFieldsOk(t: Tally, fs: seq<J.Field>, k: string)
    requires TallyOk(t) && J.DistinctKeys(fs)
    ensures TallyOk(TallyFields(t, fs))
    ensures CountOf(TallyFields(t, fs), k) == CountOf(t, k) + (if HasKey(fs, k) then 1 else 0)
    decreases |fs|
  {
    if fs != [] {
      CountedOk(t, fs[0].key);
      TallyFieldsOk(Counted(t, fs[0].key), fs[1..], k);
      HasKeyTail(fs, k);
    }
  }

  /** The tally counts, for each key, the objects that have it. */
  lemma {:induction false} TallyItemsOk(t: Tally, items: seq<J.Json>, k: string)
    requires TallyOk(t) && AllObjects(items) && forall i | 0 <= i < |items| :: J.DistinctKeys(items[i].fields)
    ensures TallyOk(TallyItems(t, items)) && CountOf(TallyItems(t, items), k) == CountOf(t, k) + Count(items, k)
    decreases |items|
  {
    if items != [] {
      TallyFieldsOk(t, items[0].fields, k);
      TallyItemsOk(TallyFields(t, items[0].fields), items[1..], k);
    }
  }

  lemma {:induction false} OptionalsElsewhere(keys: seq<string>, counts: map<string, nat>, n: nat, path: string, q: string)
    requires forall i | 0 <= i < |keys| :: Join(path, keys[i]) != q
    ensures At(Optionals(keys, counts, n, path), q) == []
  {
    if keys != [] {
      OptionalsElsewhere(keys[1..], counts, n, path, q);
      var rest := Optionals(keys[1..], counts, n, path);
      assert ([Op(Join(path, keys[0]), Optional)] + rest)[1..] == rest;
    }
  }

  lemma {:induction false} JoinInjective(path: string, k: string, l: string)
    requires path != "" && Join(path, k) == Join(path, l)
    ensures k == l
  {
    assert Join(path, k)[|path| + 1..] == k && Join(path, l)[|path| + 1..] == l;
  }

  /** A key's path is marked optional exactly when some object lacks the key. */
  lemma {:induction false} OptionalsAt(keys: seq<string>, counts: map<string, nat>, n: nat, path: string, i: nat)
    requires path != "" && i < |keys| && keys[i] in counts
    requires forall a, b | 0 <= a < b < |keys| :: keys[a] != keys[b]
    ensures At(Optionals(keys, counts, n, path), Join(path, keys[i])) == if counts[keys[i]] < n then [Optional] else []
  {
    var rest := Optionals(keys[1..], counts, n, path);
    var q := Join(path, keys[i]);
    assert ([Op(Join(path, keys[0]), Optional)] + rest)[1..] == rest;
    if i == 0 {
      forall j | 0 <= j < |keys[1..]| ensures Join(path, keys[1..][j]) != q {
        if Join(path, keys[j + 1]) == q { JoinInjective(path, keys[j + 1], keys[0]); }
      }
      OptionalsElsewhere(keys[1..], counts, n, path, q);
    } else {
      if Join(path, keys[0]) == q { JoinInjective(path, keys[0], keys[i]); }
      OptionalsAt(keys[1..], counts, n, path, i - 1);
    }
  }

  function OptionalsOf(items: seq<J.Json>, path: string): seq<Op>
    requires AllObjects(items)
  {
    var t := TallyItems(Tally([], map[]), items);
    Optionals(t.keys, t.counts, |items|, path)
  }

  ghost predicate DistinctObjects(items: seq<J.Json>) {
    AllObjects(items) && forall i | 0 <= i < |items| :: J.DistinctKeys(items[i].fields)
  }

  lemma {:induction false} OptionalsOfKey(items: seq<J.Json>, path: string, k: string)
    requires DistinctObjects(items) && path != "" && Count(items, k) > 0
    ensures At(OptionalsOf(items, path), Join(path, k)) == if Count(items, k) < |items| then [Optional] else []
  {
    var t := TallyItems(Tally([], map[]), items);
    TallyItemsOk(Tally([], map[]), items, k);
    assert k in t.counts && k in t.keys;
    var i :| 0 <= i < |t.keys| && t.keys[i] == k;
    OptionalsAt(t.keys, t.counts, |items|, path, i);
  }

  lemma {:induction false} OptionalsOfNone(items: seq<J.Json>, path: string, q: string)
    requires DistinctObjects(items) && forall k | Count(items, k) > 0 :: Join(path, k) != q
    ensures At(OptionalsOf(items, path), q) == []
  {
    var t := TallyItems(Tally([], map[]), items);
    TallyItemsOk(Tally([], map[]), items, "");
    forall i | 0 <= i < |t.keys| ensures Join(path, t.keys[i]) != q {
      TallyItemsOk(Tally([], map[]), items, t.keys[i]);
      assert t.keys[i] in t.keys;
    }
    OptionalsElsewhere(t.keys, t.counts, |items|, path, q);
  }

  lemma {:induction false} SameCount(a: seq<J.Json>, b: seq<J.Json>, k: string)
    requires AllObjects(a) && AllObjects(b) && |a| == |b| && forall i | 0 <= i < |a| :: SameUpToOrder(a[i], b[i])
    ensures Count(a, k) == Count(b, k)
  {
    if a != [] {
      SameHasKey(a[0], b[0], k);
      SameCount(a[1..], b[1..], k);
    }
  }

  lemma {:induction false} SameHasKey(v: J.Json, w: J.Json, k: string)
    requires v.Object? && SameUpToOrder(v, w)
    ensures HasKey(v.fields, k) <==> HasKey(w.fields, k)
  {
  }

  lemma {:induction false} OptionalsSame(a: seq<J.Json>, b: seq<J.Json>, path: string, q: string)
    requires DistinctObjects(a) && DistinctObjects(b) && path != "" && |a| == |b|
    requires forall i | 0 <= i < |a| :: SameUpToOrder(a[i], b[i])
    ensures At(OptionalsOf(a, path), q) == At(OptionalsOf(b, path), q)
  {
    forall k ensures Count(a, k) == Count(b, k) { SameCount(a, b, k); }
    if k :| Count(a, k) > 0 && Join(path, k) == q {
      OptionalsOfKey(a, path, k);
      OptionalsOfKey(b, path, k);
    } else {
      OptionalsOfNone(a, path, q);
      OptionalsOfNone(b, path, q);
    }
  }

  // ---- The same updates at every path ----

  ghost predicate Clean(v: J.Json) { J.KeysSatisfy(v, CleanKey) }

  lemma {:induction false} EmitSame(path: string, v: J.Json, w: J.Json, q: string)
    requires SameUpToOrder(v, w) && Clean(v) && Clean(w)
    ensures At(Emit(path, v), q) == At(Emit(path, w), q)
    decreases v, 3
  {
    match v
    case Object(_) =>
      WalkSame(v, w, path, q);
      AtAppend([Op(path, Ensure("object"))], Walk(v, path), q);
      AtAppend([Op(path, Ensure("object"))], Walk(w, path), q);
    case List(_) => WalkSame(v, w, path, q);
    case _ =>
  }

  lemma {:induction false} WalkSame(v: J.Json, w: J.Json, parent: string, q: string)
    requires SameUpToOrder(v, w) && Clean(v) && Clean(w)
    ensures At(Walk(v, parent), q) == At(Walk(w, parent), q)
    decreases v, 2
  {
    match v
    case Object(fs) =>
      var head := if parent != "" then [Op(parent, Ensure("object"))] else [];
      FieldsSame(fs, w.fields, parent, q);
      AtAppend(head, EmitFields(fs, parent), q);
      AtAppend(head, EmitFields(w.fields, parent), q);
    case List(items) =>
      var head := [Op(if parent != "" then parent else "[*]", Ensure("array"))];
      WalkItemsSame(items, w.items, parent, q);
      AtAppend(head, WalkItems(items, parent), q);
      AtAppend(head, WalkItems(w.items, parent), q);
    case _ =>
  }

  ghost predicate SameItems(a: seq<J.Json>, b: seq<J.Json>) {
    |a| == |b| && forall i | 0 <= i < |a| :: SameUpToOrder(a[i], b[i]) && Clean(a[i]) && Clean(b[i])
  }

  lemma {:induction false} SameKinds(a: seq<J.Json>, b: seq<J.Json>)
    requires SameItems(a, b)
    ensures AllObjects(a) <==> AllObjects(b)
    ensures AllObjects(a) ==> DistinctObjects(a) && DistinctObjects(b)
    ensures ArrayItemType(a) == ArrayItemType(b)
  {
    forall i | 0 <= i < |a| ensures a[i].Null? == b[i].Null? && ScalarType(a[i]) == ScalarType(b[i]) && a[i].Object? == b[i].Object? {
      assert SameUpToOrder(a[i], b[i]);
    }
    forall t ensures t in ItemTypes(a) <==> t in ItemTypes(b) {
      if t in ItemTypes(a) {
        var i :| 0 <= i < |a| && !a[i].Null? && ScalarType(a[i]) == t;
        assert ScalarType(b[i]) == t;
      }
      if t in ItemTypes(b) {
        var i :| 0 <= i < |b| && !b[i].Null? && ScalarType(b[i]) == t;
        assert ScalarType(a[i]) == t;
      }
    }
    assert ItemTypes(a) == ItemTypes(b);
  }

  lemma {:induction false} WalkItemsSame(a: seq<J.Json>, b: seq<J.Json>, parent: string, q: string)
    requires SameItems(a, b)
    ensures At(WalkItems(a, parent), q) == At(WalkItems(b, parent), q)
    decreases a, 1
  {
    SameKinds(a, b);
    var path, slot := ArrayPath(parent), if parent != "" then parent else "[*]";
    if a != [] && AllObjects(a) {
      var head := [Op(slot, ItemType("object"))];
      ObjectsSame(a, b, path, q);
      OptionalsSame(a, b, path, q);
      AtAppend(head + EmitObjects(a, path), OptionalsOf(a, path), q);
      AtAppend(head + EmitObjects(b, path), OptionalsOf(b, path), q);
      AtAppend(head, EmitObjects(a, path), q);
      AtAppend(head, EmitObjects(b, path), q);
    } else if a != [] {
      var tail := [Op(slot, ItemType(ArrayItemType(a)))];
      EmitItemsSame(a, b, path, q);
      AtAppend(EmitItems(a, path), tail, q);
      AtAppend(EmitItems(b, path), tail, q);
    }
  }

  lemma {:induction false} EmitItemsSame(a: seq<J.Json>, b: seq<J.Json>, path: string, q: string)
    requires SameItems(a, b)
    ensures At(EmitItems(a, path), q) == At(EmitItems(b, path), q)
    decreases a, 0
  {
    if a != [] {
      EmitSame(path, a[0], b[0], q);
      EmitItemsSame(a[1..], b[1..], path, q);
      AtAppend(Emit(path, a[0]), EmitItems(a[1..], path), q);
      AtAppend(Emit(path, b[0]), EmitItems(b[1..], path), q);
    }
  }

  lemma {:induction false} ObjectsSame(a: seq<J.Json>, b: seq<J.Json>, path: string, q: string)
    requires SameItems(a, b) && AllObjects(a) && AllObjects(b)
    ensures At(EmitObjects(a, path), q) == At(EmitObjects(b, path), q)
    decreases a, 0
  {
    if a != [] {
      FieldsSame(a[0].fields, b[0].fields, path, q);
      ObjectsSame(a[1..], b[1..], path, q);
      AtAppend(EmitFields(a[0].fields, path), EmitObjects(a[1..], path), q);
      AtAppend(EmitFields(b[0].fields, path), EmitObjects(b[1..], path), q);
    }
  }

  ghost predicate Owned(fs: seq<J.Field>, parent: string, q: string) {
    exists i | 0 <= i < |fs| :: Under(Join(parent, fs[i].key), q)
  }

  lemma {:induction false} FieldsSame(fs: seq<J.Field>, gs: seq<J.Field>, parent: string, q: string)
    requires SameUpToOrder(J.Object(fs), J.Object(gs)) && Clean(J.Object(fs)) && Clean(J.Object(gs))
    ensures At(EmitFields(fs, parent), q) == At(EmitFields(gs, parent), q)
    decreases fs, 0
  {
    if Owned(fs, parent, q) {
      var i :| 0 <= i < |fs| && Under(Join(parent, fs[i].key), q);
      assert HasKey(gs, fs[i].key);
      var j :| 0 <= j < |gs| && gs[j].key == fs[i].key;
      FieldsAt(fs, parent, q, i);
      FieldsAt(gs, parent, q, j);
      EmitSame(Join(parent, fs[i].key), fs[i].value, gs[j].value, q);
    } else {
      forall j | 0 <= j < |gs| ensures !Under(Join(parent, gs[j].key), q) {
        assert HasKey(fs, gs[j].key);
      }
      FieldsElsewhere(fs, parent, q);
      FieldsElsewhere(gs, parent, q);
    }
  }

  /** Reordering the keys of any object at any depth gives the same node list. */
  lemma {:induction false} KeyOrderIrrelevant(v: J.Json, w: J.Json)
    requires SameUpToOrder(v, w) && Clean(v) && Clean(w)
    ensures Infer(v) == Infer(w)
  {
    forall q ensures At(Walk(v, ""), q) == At(Walk(w, ""), q) { WalkSame(v, w, "", q); }
    SameUpdatesSameNodes(Walk(v, ""), Walk(w, ""));
  }
}
