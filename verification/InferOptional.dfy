/** Which leaves of a document's schema are required: all but those whose key some list of
    objects has in one object and lacks in another. */
module InferOptional {
  import opened Texts
  import opened SchemaInfer
  import opened InferOrder
  import opened InferLeaf
  import J = Json

  /** One of the objects has the key and one lacks it. */
  ghost predicate Partly(items: seq<J.Json>, k: string)
    requires AllObjects(items)
  {
    && (exists i | 0 <= i < |items| :: HasKey(items[i].fields, k))
    && (exists i | 0 <= i < |items| :: !HasKey(items[i].fields, k))
  }

  /** Some list of objects in `v`, which lies at `parent`, has partly the key that leads to `q`. */
  ghost predicate SomeLacks(v: J.Json, parent: string, q: string)
    decreases v, 1
  {
    match v
    case Object(fs) => FieldsLack(fs, parent, q)
    case List(items) =>
      || (AllObjects(items) && exists k :: Partly(items, k) && q == Join(ArrayPath(parent), k))
      || ItemsLack(items, ArrayPath(parent), q)
    case _ => false
  }

  ghost predicate FieldsLack(fs: seq<J.Field>, parent: string, q: string)
    decreases fs, 0
  {
    fs != [] && (SomeLacks(fs[0].value, Join(parent, fs[0].key), q) || FieldsLack(fs[1..], parent, q))
  }

  ghost predicate ItemsLack(items: seq<J.Json>, path: string, q: string)
    decreases items, 0
  {
    items != [] && (SomeLacks(items[0], path, q) || ItemsLack(items[1..], path, q))
  }

  lemma {:induction false} CountMeans(items: seq<J.Json>, k: string)
    requires AllObjects(items)
    ensures Count(items, k) > 0 <==> exists i | 0 <= i < |items| :: HasKey(items[i].fields, k)
    ensures Count(items, k) <= |items|
    ensures Count(items, k) < |items| <==> exists i | 0 <= i < |items| :: !HasKey(items[i].fields, k)
  {
    if items != [] {
      var rest := items[1..];
      CountMeans(rest, k);
      assert forall i | 0 <= i < |rest| :: rest[i] == items[i + 1];
      assert forall i | 0 < i < |items| :: items[i] == rest[i - 1];
    }
  }

  // ---- Marks in a trace ----

  predicate Marks(ops: seq<Op>, q: string) { Optional in At(ops, q) }

  /** The first update of the path, if there is any, is not the mark. */
  predicate Starts(ops: seq<Op>, q: string) { At(ops, q) != [] ==> !At(ops, q)[0].Optional? }

  lemma {:induction false} MarksAppend(a: seq<Op>, b: seq<Op>, q: string)
    ensures Marks(a + b, q) <==> Marks(a, q) || Marks(b, q)
    ensures Starts(a, q) && (Starts(b, q) || At(a, q) != []) ==> Starts(a + b, q)
    ensures At(a, q) != [] ==> At(a + b, q) != []
    ensures At(b, q) != [] ==> At(a + b, q) != []
  {
    AtAppend(a, b, q);
  }

  lemma {:induction false} OneMarksNot(path: string, u: Update, q: string)
    requires !u.Optional?
    ensures !Marks([Op(path, u)], q) && Starts([Op(path, u)], q) && At([Op(path, u)], path) == [u]
  {
    AtOne(path, u, q);
    AtOne(path, u, path);
  }

  lemma {:induction false} EmitTouches(path: string, v: J.Json)
    requires path != ""
    ensures At(Emit(path, v), path) != []
  {
    match v
    case Object(fs) =>
      OneMarksNot(path, Ensure("object"), path);
      MarksAppend([Op(path, Ensure("object"))], Walk(v, path), path);
    case List(items) =>
      OneMarksNot(path, Ensure("array"), path);
      MarksAppend([Op(path, Ensure("array"))], WalkItems(items, path), path);
    case _ =>
      OneMarksNot(path, Observe(v), path);
  }

  lemma {:induction false} FieldTouches(fs: seq<J.Field>, parent: string, k: string)
    requires parent != "" && HasKey(fs, k)
    ensures At(EmitFields(fs, parent), Join(parent, k)) != []
    decreases |fs|
  {
    var first := Emit(Join(parent, fs[0].key), fs[0].value);
    HasKeyTail(fs, k);
    if fs[0].key == k { EmitTouches(Join(parent, k), fs[0].value); } else { FieldTouches(fs[1..], parent, k); }
    MarksAppend(first, EmitFields(fs[1..], parent), Join(parent, k));
  }

  lemma {:induction false} ObjectsTouch(items: seq<J.Json>, path: string, k: string)
    requires path != "" && AllObjects(items) && Count(items, k) > 0
    ensures At(EmitObjects(items, path), Join(path, k)) != []
  {
    if HasKey(items[0].fields, k) { FieldTouches(items[0].fields, path, k); } else { ObjectsTouch(items[1..], path, k); }
    MarksAppend(EmitFields(items[0].fields, path), EmitObjects(items[1..], path), Join(path, k));
  }

  /** The marks of one list of objects. */
  lemma {:induction false} OptionalsMark(items: seq<J.Json>, path: string, q: string)
    requires DistinctObjects(items) && path != ""
    ensures Marks(OptionalsOf(items, path), q) <==> exists k :: Partly(items, k) && q == Join(path, k)
    ensures At(OptionalsOf(items, path), q) != [] ==> At(EmitObjects(items, path), q) != []
  {
    if k :| Count(items, k) > 0 && q == Join(path, k) {
      OptionalsOfKey(items, path, k);
      ObjectsTouch(items, path, k);
      CountMeans(items, k);
      assert Partly(items, k) <==> Count(items, k) < |items|;
      forall l | q == Join(path, l) ensures l == k { JoinInjective(path, l, k); }
    } else {
      OptionalsOfNone(items, path, q);
      forall k | Partly(items, k) ensures Join(path, k) != q { CountMeans(items, k); }
    }
  }

  lemma {:induction false} WalkMarks(v: J.Json, parent: string, q: string)
    requires J.Valid(v)
    ensures (Marks(Walk(v, parent), q) <==> SomeLacks(v, parent, q)) && Starts(Walk(v, parent), q)
    decreases v, 2
  {
    match v
    case Object(fs) =>
      FieldsMark(fs, parent, q);
      if parent != "" {
        OneMarksNot(parent, Ensure("object"), q);
        MarksAppend([Op(parent, Ensure("object"))], EmitFields(fs, parent), q);
      } else {
        assert [] + EmitFields(fs, parent) == EmitFields(fs, parent);
      }
    case List(items) =>
      var path := if parent != "" then parent else "[*]";
      ListMarks(items, parent, q);
      OneMarksNot(path, Ensure("array"), q);
      MarksAppend([Op(path, Ensure("array"))], WalkItems(items, parent), q);
    case _ =>
      OneMarksNot(if parent != "" then parent else "[root]", Observe(v), q);
  }

  /** A list of objects marks what its objects and its own keys mark. */
  lemma {:induction false} ObjectListMarks(items: seq<J.Json>, parent: string, q: string)
    requires items != [] && DistinctObjects(items) && Starts(EmitObjects(items, ArrayPath(parent)), q)
    ensures Marks(WalkItems(items, parent), q) <==>
      (Marks(EmitObjects(items, ArrayPath(parent)), q) || Marks(OptionalsOf(items, ArrayPath(parent)), q))
    ensures Starts(WalkItems(items, parent), q)
  {
    var path, under := if parent != "" then parent else "[*]", ArrayPath(parent);
    var first := [Op(path, ItemType("object"))];
    OneMarksNot(path, ItemType("object"), q);
    OptionalsMark(items, under, q);
    MarksAppend(first, EmitObjects(items, under), q);
    MarksAppend(first + EmitObjects(items, under), OptionalsOf(items, under), q);
  }

  lemma {:induction false} ListMarks(items: seq<J.Json>, parent: string, q: string)
    requires J.Valid(J.List(items))
    ensures Marks(WalkItems(items, parent), q) <==> SomeLacks(J.List(items), parent, q)
    ensures Starts(WalkItems(items, parent), q)
    decreases items, 1
  {
    var path, under := if parent != "" then parent else "[*]", ArrayPath(parent);
    if items == [] {
      OneMarksNot(path, ItemType("unknown"), q);
    } else if AllObjects(items) {
      ObjectsMark(items, under, q);
      OptionalsMark(items, under, q);
      ObjectListMarks(items, parent, q);
    } else {
      ItemsMark(items, under, q);
      OneMarksNot(path, ItemType(ArrayItemType(items)), q);
      MarksAppend(EmitItems(items, under), [Op(path, ItemType(ArrayItemType(items)))], q);
    }
  }

  lemma {:induction false} EmitMarks(path: string, v: J.Json, q: string)
    requires J.Valid(v)
    ensures (Marks(Emit(path, v), q) <==> SomeLacks(v, path, q)) && Starts(Emit(path, v), q)
    decreases v, 3
  {
    if !J.IsScalar(v) { WalkMarks(v, path, q); }
    if v.Object? {
      OneMarksNot(path, Ensure("object"), q);
      MarksAppend([Op(path, Ensure("object"))], Walk(v, path), q);
    } else if J.IsScalar(v) {
      OneMarksNot(path, Observe(v), q);
    }
  }

  lemma {:induction false} FieldsMark(fs: seq<J.Field>, parent: string, q: string)
    requires forall i | 0 <= i < |fs| :: J.Valid(fs[i].value)
    ensures (Marks(EmitFields(fs, parent), q) <==> FieldsLack(fs, parent, q)) && Starts(EmitFields(fs, parent), q)
    decreases fs, 0
  {
    if fs != [] {
      EmitMarks(Join(parent, fs[0].key), fs[0].value, q);
      FieldsMark(fs[1..], parent, q);
      MarksAppend(Emit(Join(parent, fs[0].key), fs[0].value), EmitFields(fs[1..], parent), q);
    }
  }

  lemma {:induction false} ObjectsMark(items: seq<J.Json>, path: string, q: string)
    requires AllObjects(items) && forall i | 0 <= i < |items| :: J.Valid(items[i])
    ensures (Marks(EmitObjects(items, path), q) <==> ItemsLack(items, path, q)) && Starts(EmitObjects(items, path), q)
    decreases items, 0
  {
    if items != [] {
      FieldsMark(items[0].fields, path, q);
      ObjectsMark(items[1..], path, q);
      MarksAppend(EmitFields(items[0].fields, path), EmitObjects(items[1..], path), q);
    }
  }

  lemma {:induction false} ItemsMark(items: seq<J.Json>, path: string, q: string)
    requires forall i | 0 <= i < |items| :: J.Valid(items[i])
    ensures (Marks(EmitItems(items, path), q) <==> ItemsLack(items, path, q)) && Starts(EmitItems(items, path), q)
    decreases items, 0
  {
    if items != [] {
      EmitMarks(path, items[0], q);
      ItemsMark(items[1..], path, q);
      MarksAppend(Emit(path, items[0]), EmitItems(items[1..], path), q);
    }
  }

  /** A path is marked optional, after its first update, exactly when some list of objects
      in the document has its key in one object and lacks it in another. */
  lemma {:induction false} MarkedIffLacking(v: J.Json, path: string)
    requires J.Valid(v)
    ensures var us := At(Walk(v, ""), path);
      && (Optional in us <==> SomeLacks(v, "", path)) && (us != [] ==> !us[0].Optional?)
  {
    WalkMarks(v, "", path);
  }

  lemma {:induction false} MadeOptionalMeans(us: seq<Update>)
    requires LeafUpdates(us) && (us != [] ==> !us[0].Optional?)
    ensures MadeOptional(us) <==> Optional in us
  {
    if Optional in us {
      var j :| 0 <= j < |us| && us[j] == Optional;
      assert us[0].Observe? && us[j].Optional?;
    }
  }

  /** In a document's schema a path that observes only scalars is the leaf of their values,
      and is required unless some list of objects in the document has its key in one object
      and lacks it in another. */
  lemma {:induction false} LeafOfDocument(v: J.Json, path: string, us: seq<Update>)
    requires J.Valid(v) && us == At(Walk(v, ""), path) && LeafUpdates(us) && us != []
    ensures Scalars(ValuesOf(us)) && ValuesOf(us) != [] && Streamed(ValuesOf(us)).Some?
    ensures Finalize(path, Streamed(ValuesOf(us)).value).(required := !SomeLacks(v, "", path)) in Infer(v)
  {
    MarkedIffLacking(v, path);
    MadeOptionalMeans(us);
    ValuesAreScalars(us);
    assert us[0].Observe?;
    LeafOfTrace(v, path, us);
  }
}
