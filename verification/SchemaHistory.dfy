/** Histories of snapshots: exactly when a breaking change between the first and the last
    is reported by no consecutive pair, and three responses for which that happens. */
module SchemaHistory {
  import opened Texts
  import opened SchemaInfer
  import opened SchemaDiff
  import J = Json

  predicate ArrayAt(nodes: seq<Node>, path: string) {
    Lookup(nodes, path).Some? && Lookup(nodes, path).value.typ == "array"
  }

  function ItemTypeAt(nodes: seq<Node>, path: string): Option<string>
    requires ArrayAt(nodes, path)
  {
    Lookup(nodes, path).value.itemType
  }

  /** Arrays on both sides, with the same item type or one whose change is masked. */
  ghost predicate KeepsOrMasks(before: seq<Node>, after: seq<Node>, path: string) {
    && ArrayAt(before, path) && ArrayAt(after, path)
    && (ItemTypeAt(before, path) == ItemTypeAt(after, path) || Masked(Lookup(before, path), Lookup(after, path)))
  }

  lemma {:induction false} ArrayPairQuiet(before: seq<Node>, after: seq<Node>, path: string)
    requires ArrayAt(before, path)
    ensures !ReportsBreaking(before, after, path) <==> KeepsOrMasks(before, after, path)
  {
    ReportsWhat(before, after, path);
    ArrayChange(Lookup(before, path), Lookup(after, path));
  }

  lemma {:induction false} ArrayChange(o: Option<Node>, n: Option<Node>)
    requires o.Some? && o.value.typ == "array"
    ensures !BreakingChange(ChangeOf(o, n)) <==>
      (n.Some? && n.value.typ == "array" && (o.value.itemType == n.value.itemType || Masked(o, n)))
  {
  }

  lemma {:induction false} QuietStaysArray(history: seq<seq<Node>>, n: nat, path: string)
    requires n < |history| && ArrayAt(history[0], path) && forall k | 0 <= k < n :: QuietAt(history, k, path)
    ensures ArrayAt(history[n], path)
  {
    if n > 0 {
      QuietStaysArray(history, n - 1, path);
      assert QuietAt(history, n - 1, path);
      ArrayPairQuiet(history[n - 1], history[n], path);
    }
  }

  /** Over arrays no pair breaks exactly when every pair keeps or masks the item type. */
  lemma {:induction false} QuietArrays(history: seq<seq<Node>>, path: string)
    requires history != [] && ArrayAt(history[0], path)
    ensures (forall k | 0 <= k < |history| - 1 :: QuietAt(history, k, path)) <==>
      (forall k | 0 <= k < |history| - 1 :: KeepsOrMasks(history[k], history[k + 1], path))
  {
    if forall k | 0 <= k < |history| - 1 :: QuietAt(history, k, path) {
      forall k | 0 <= k < |history| - 1 ensures KeepsOrMasks(history[k], history[k + 1], path) {
        QuietStaysArray(history, k, path);
        assert QuietAt(history, k, path);
        ArrayPairQuiet(history[k], history[k + 1], path);
      }
    } else {
      var k :| 0 <= k < |history| - 1 && !QuietAt(history, k, path);
      assert !KeepsOrMasks(history[k], history[k + 1], path) by {
        if ArrayAt(history[k], path) { ArrayPairQuiet(history[k], history[k + 1], path); }
      }
    }
  }

  /** A breaking change between the ends is lost, no pair reporting one, exactly when the
      path is an array in every snapshot and every change of its item type is masked. */
  lemma {:induction false} LostIffMasked(history: seq<seq<Node>>, path: string)
    requires history != [] && ReportsBreaking(history[0], history[|history| - 1], path)
    ensures (forall k | 0 <= k < |history| - 1 :: QuietAt(history, k, path)) <==>
      (forall k | 0 <= k < |history| - 1 :: KeepsOrMasks(history[k], history[k + 1], path))
  {
    if ArrayAt(history[0], path) {
      QuietArrays(history, path);
    } else if |history| > 1 {
      assert !KeepsOrMasks(history[0], history[0 + 1], path);
      NotAnArrayIsReported(history, path);
    }
  }

  lemma {:induction false} NotAnArrayIsReported(history: seq<seq<Node>>, path: string)
    requires |history| > 1 && ReportsBreaking(history[0], history[|history| - 1], path) && !ArrayAt(history[0], path)
    ensures exists k | 0 <= k < |history| - 1 :: !QuietAt(history, k, path)
  {
    NoBreakingChangeLost(history, path);
    if Reports(history[0], history[|history| - 1], path, ArrayItemTypeChanged) {
      ReportsWhat(history[0], history[|history| - 1], path);
      ItemTypeOfArrays(Lookup(history[0], path), Lookup(history[|history| - 1], path));
    }
  }

  lemma {:induction false} ItemTypeOfArrays(o: Option<Node>, n: Option<Node>)
    requires ChangeOf(o, n) == Some(ArrayItemTypeChanged)
    ensures o.Some? && o.value.typ == "array"
  {
  }

  // ---- Over documents ----

  /** An accumulator that observed a string is not an array's. */
  predicate StringsTyped(st: Option<NodeState>) {
    st.Some? && st.value.stringLeaf ==> st.value.typ == "string" || st.value.typ == "mixed"
  }

  lemma {:induction false} WithTypeStringsTyped(st: NodeState, t: string)
    requires StringsTyped(Some(st))
    ensures StringsTyped(Some(WithType(st, t)))
    ensures t == "string" ==> WithType(st, t).typ == "string" || WithType(st, t).typ == "mixed"
  {
    assert "null"[0] != "string"[0] && "null"[0] != "mixed"[0];
  }

  lemma {:induction false} ObservedStringsTyped(st: Option<NodeState>, v: J.Json)
    requires StringsTyped(st)
    ensures StringsTyped(Some(Observed(st, v)))
  {
    if !v.Null? { WithTypeStringsTyped(Ensured(st, ScalarType(v)), ScalarType(v)); }
  }

  lemma {:induction false} FoldedStringsTyped(st: Option<NodeState>, us: seq<Update>)
    requires StringsTyped(st)
    ensures StringsTyped(Folded(st, us))
    decreases |us|
  {
    if us != [] {
      if us[0].Observe? { ObservedStringsTyped(st, us[0].value); }
      FoldedStringsTyped(Applied(st, us[0]), us[1..]);
    }
  }

  /** The node a document's schema has at a path: its accumulator, finished. */
  lemma {:induction false} LookupInferred(v: J.Json, path: string)
    ensures var st := Folded(None, At(Walk(v, ""), path));
      Lookup(Infer(v), path) == if st.Some? then Some(Finalize(path, st.value)) else None
  {
    var ops, nodes := Walk(v, ""), Infer(v);
    InferIsSorted(v);
    TouchedHas(ops, path);
    if path in Touched(ops) {
      var i :| 0 <= i < |SortedSet(Touched(ops))| && SortedSet(Touched(ops))[i] == path;
      NodesAt(ops, i);
      ByPathAt(nodes, i);
    } else if Lookup(nodes, path).Some? {
      ByPathFrom(nodes, path);
      var i :| 0 <= i < |nodes| && nodes[i] == Lookup(nodes, path).value && nodes[i].path == path;
      NodesAt(ops, i);
    }
  }

  ghost predicate ListsNoValues(nodes: seq<Node>, path: string) {
    ArrayAt(nodes, path) ==> Lookup(nodes, path).value.enums.None?
  }

  /** An inferred array lists no values. */
  lemma {:induction false} ArraysListNoValues(v: J.Json, path: string)
    ensures ListsNoValues(Infer(v), path)
  {
    LookupInferred(v, path);
    FoldedStringsTyped(None, At(Walk(v, ""), path));
    assert "array"[0] != "string"[0] && "array"[0] != "mixed"[0];
  }

  /** Arrays on both sides whose item type changes only together with nullability. */
  ghost predicate ItemTypeMovesWithNull(before: seq<Node>, after: seq<Node>, path: string) {
    && ArrayAt(before, path) && ArrayAt(after, path)
    && (ItemTypeAt(before, path) != ItemTypeAt(after, path) ==>
        Lookup(before, path).value.nullable != Lookup(after, path).value.nullable)
  }

  lemma {:induction false} MaskIsNull(before: seq<Node>, after: seq<Node>, path: string)
    requires ListsNoValues(before, path)
    ensures KeepsOrMasks(before, after, path) <==> ItemTypeMovesWithNull(before, after, path)
  {
  }

  lemma {:induction false} MasksAreNulls(history: seq<seq<Node>>, path: string)
    requires forall k | 0 <= k < |history| :: ListsNoValues(history[k], path)
    ensures (forall k | 0 <= k < |history| - 1 :: KeepsOrMasks(history[k], history[k + 1], path)) <==>
      (forall k | 0 <= k < |history| - 1 :: ItemTypeMovesWithNull(history[k], history[k + 1], path))
  {
    forall k | 0 <= k < |history| - 1
      ensures KeepsOrMasks(history[k], history[k + 1], path) <==> ItemTypeMovesWithNull(history[k], history[k + 1], path)
    {
      MaskIsNull(history[k], history[k + 1], path);
    }
  }

  /** What the monitor stores for a sequence of documents. */
  function Snapshots(docs: seq<J.Json>): (history: seq<seq<Node>>)
    ensures |history| == |docs| && forall i | 0 <= i < |docs| :: history[i] == Infer(docs[i])
  {
    if docs == [] then [] else [Infer(docs[0])] + Snapshots(docs[1..])
  }

  lemma {:induction false} SnapshotsListNoValues(docs: seq<J.Json>, path: string)
    ensures forall k | 0 <= k < |docs| :: ListsNoValues(Snapshots(docs)[k], path)
  {
    forall k | 0 <= k < |docs| ensures ListsNoValues(Snapshots(docs)[k], path) { ArraysListNoValues(docs[k], path); }
  }

  /** Over the snapshots of any documents, a breaking change at a path between the first
      and the last is reported by some consecutive pair, except exactly when the path is an
      array throughout and each change of its item type comes with one of nullability. */
  lemma {:induction false} LostOverDocuments(docs: seq<J.Json>, path: string)
    requires docs != [] && ReportsBreaking(Snapshots(docs)[0], Snapshots(docs)[|docs| - 1], path)
    ensures (forall k | 0 <= k < |docs| - 1 :: QuietAt(Snapshots(docs), k, path)) <==>
      (forall k | 0 <= k < |docs| - 1 :: ItemTypeMovesWithNull(Snapshots(docs)[k], Snapshots(docs)[k + 1], path))
  {
    SnapshotsListNoValues(docs, path);
    MasksAreNulls(Snapshots(docs), path);
    LostIffMasked(Snapshots(docs), path);
  }

  // ---- Three responses that lose one ----

  const LIST_PATH: string := "[*]"
  const FIELD_PATH: string := "[*].a"
  const ITEM_PATH: string := "[*].a[*]"

  /** `{"a": x}` */
  function WithA(x: J.Json): J.Json { J.Object([J.Field("a", x)]) }

  const LIST_OPS: seq<Op> := [Op(LIST_PATH, Ensure("array")), Op(LIST_PATH, ItemType("object"))]

  lemma {:induction false} PathsOfA()
    ensures ArrayPath("") == LIST_PATH && Join(LIST_PATH, "a") == FIELD_PATH && ArrayPath(FIELD_PATH) == ITEM_PATH
    ensures LIST_PATH != FIELD_PATH && FIELD_PATH != ITEM_PATH && ITEM_PATH != LIST_PATH
  {
    assert |LIST_PATH| == 3 && |FIELD_PATH| == 5 && |ITEM_PATH| == 8;
  }

  lemma {:induction false} FieldsOfA(x: J.Json)
    ensures EmitFields(WithA(x).fields, LIST_PATH) == Emit(FIELD_PATH, x)
  {
    PathsOfA();
    assert WithA(x).fields[1..] == [];
  }

  lemma {:induction false} CountsOfA(x: J.Json)
    ensures TallyFields(Tally([], map[]), WithA(x).fields) == Tally(["a"], map["a" := 1])
    ensures TallyFields(Tally(["a"], map["a" := 1]), WithA(x).fields) == Tally(["a"], map["a" := 2])
  {
    assert WithA(x).fields[1..] == [];
  }

  /** The updates of `[{"a": x}]`. */
  lemma {:induction false} OneObject(x: J.Json)
    ensures Walk(J.List([WithA(x)]), "") == LIST_OPS + Emit(FIELD_PATH, x)
  {
    var items := [WithA(x)];
    PathsOfA();
    FieldsOfA(x);
    CountsOfA(x);
    assert items[1..] == [] && AllObjects(items);
    assert TallyItems(Tally([], map[]), items) == Tally(["a"], map["a" := 1]);
    assert Optionals(["a"], map["a" := 1], 1, LIST_PATH) == Optionals(["a"][1..], map["a" := 1], 1, LIST_PATH);
    assert EmitObjects(items, LIST_PATH) == Emit(FIELD_PATH, x);
  }

  /** The updates of `[{"a": x}, {"a": y}]`. */
  lemma {:induction false} TwoObjects(x: J.Json, y: J.Json)
    ensures Walk(J.List([WithA(x), WithA(y)]), "") == LIST_OPS + (Emit(FIELD_PATH, x) + Emit(FIELD_PATH, y))
  {
    var items := [WithA(x), WithA(y)];
    PathsOfA();
    assert AllObjects(items);
    TwoTallied(x, y);
    TwoEmitted(x, y);
    assert Optionals(["a"], map["a" := 2], 2, LIST_PATH) == Optionals(["a"][1..], map["a" := 2], 2, LIST_PATH);
  }

  lemma {:induction false} TwoTallied(x: J.Json, y: J.Json)
    ensures AllObjects([WithA(x), WithA(y)])
    ensures TallyItems(Tally([], map[]), [WithA(x), WithA(y)]) == Tally(["a"], map["a" := 2])
  {
    CountsOfA(x);
    CountsOfA(y);
    assert [WithA(x), WithA(y)][1..] == [WithA(y)] && [WithA(y)][1..] == [];
    assert TallyItems(Tally(["a"], map["a" := 1]), [WithA(y)]) == Tally(["a"], map["a" := 2]);
  }

  lemma {:induction false} TwoEmitted(x: J.Json, y: J.Json)
    ensures EmitObjects([WithA(x), WithA(y)], LIST_PATH) == Emit(FIELD_PATH, x) + Emit(FIELD_PATH, y)
  {
    FieldsOfA(x);
    FieldsOfA(y);
    assert [WithA(x), WithA(y)][1..] == [WithA(y)] && [WithA(y)][1..] == [];
    assert EmitObjects([WithA(y)], LIST_PATH) == Emit(FIELD_PATH, y);
  }

  /** What an empty list, a list of one integer and a null under `a` do. */
  lemma {:induction false} UnderA()
    ensures Emit(FIELD_PATH, J.List([])) == [Op(FIELD_PATH, Ensure("array")), Op(FIELD_PATH, ItemType("unknown"))]
    ensures Emit(FIELD_PATH, J.List([J.Int(1)])) ==
      [Op(FIELD_PATH, Ensure("array")), Op(ITEM_PATH, Observe(J.Int(1))), Op(FIELD_PATH, ItemType("integer"))]
    ensures Emit(FIELD_PATH, J.Null) == [Op(FIELD_PATH, Observe(J.Null))]
  {
    PathsOfA();
    var items := [J.Int(1)];
    assert items[1..] == [] && !items[0].Object?;
    assert EmitItems(items, ITEM_PATH) == [Op(ITEM_PATH, Observe(J.Int(1)))];
    assert ItemTypes(items) == {"integer"};
  }

  const EMPTY_LIST: J.Json := J.List([WithA(J.List([]))])
  const ONE_OR_NULL: J.Json := J.List([WithA(J.List([J.Int(1)])), WithA(J.Null)])
  const ONE: J.Json := J.List([WithA(J.List([J.Int(1)]))])

  lemma {:induction false} AtList(ops: seq<Op>, q: string)
    ensures At(LIST_OPS + ops, q) == if q == LIST_PATH then [Ensure("array"), ItemType("object")] + At(ops, q) else At(ops, q)
  {
    AtAppend(LIST_OPS, ops, q);
    AtOne(LIST_PATH, Ensure("array"), q);
    AtOne(LIST_PATH, ItemType("object"), q);
    AtAppend([Op(LIST_PATH, Ensure("array"))], [Op(LIST_PATH, ItemType("object"))], q);
    assert LIST_OPS == [Op(LIST_PATH, Ensure("array"))] + [Op(LIST_PATH, ItemType("object"))];
  }

  lemma {:induction false} AtTwo(a: Op, b: Op, q: string)
    ensures At([a, b], q) == At([a], q) + At([b], q)
  {
    AtAppend([a], [b], q);
    assert [a] + [b] == [a, b];
  }

  lemma {:induction false} AtThree(a: Op, b: Op, c: Op, q: string)
    ensures At([a, b, c], q) == At([a], q) + At([b], q) + At([c], q)
  {
    AtTwo(a, b, q);
    AtAppend([a, b], [c], q);
    assert [a, b] + [c] == [a, b, c];
  }

  /** The updates of the field's values at each path. */
  lemma {:induction false} FieldTraces(q: string)
    ensures At(Emit(FIELD_PATH, J.List([])), q) == if q == FIELD_PATH then [Ensure("array"), ItemType("unknown")] else []
    ensures At(Emit(FIELD_PATH, J.List([J.Int(1)])), q) ==
      if q == FIELD_PATH then [Ensure("array"), ItemType("integer")] else if q == ITEM_PATH then [Observe(J.Int(1))] else []
    ensures At(Emit(FIELD_PATH, J.Null), q) == if q == FIELD_PATH then [Observe(J.Null)] else []
  {
    UnderA();
    PathsOfA();
    var list, item := Op(FIELD_PATH, Ensure("array")), Op(ITEM_PATH, Observe(J.Int(1)));
    AtOne(FIELD_PATH, Ensure("array"), q);
    AtOne(FIELD_PATH, ItemType("unknown"), q);
    AtTwo(list, Op(FIELD_PATH, ItemType("unknown")), q);
    AtOne(ITEM_PATH, Observe(J.Int(1)), q);
    AtOne(FIELD_PATH, ItemType("integer"), q);
    AtThree(list, item, Op(FIELD_PATH, ItemType("integer")), q);
    AtOne(FIELD_PATH, Observe(J.Null), q);
  }

  function ListUpdates(q: string): seq<Update> { if q == LIST_PATH then [Ensure("array"), ItemType("object")] else [] }

  /** The updates the three responses make at each path. */
  lemma {:induction false} EmptyListTrace(q: string)
    ensures At(Walk(EMPTY_LIST, ""), q) == if q == FIELD_PATH then [Ensure("array"), ItemType("unknown")] else ListUpdates(q)
  {
    PathsOfA();
    OneObject(J.List([]));
    AtList(Emit(FIELD_PATH, J.List([])), q);
    FieldTraces(q);
  }

  lemma {:induction false} OneTrace(q: string)
    ensures At(Walk(ONE, ""), q) ==
      if q == FIELD_PATH then [Ensure("array"), ItemType("integer")]
      else if q == ITEM_PATH then [Observe(J.Int(1))] else ListUpdates(q)
  {
    PathsOfA();
    OneObject(J.List([J.Int(1)]));
    AtList(Emit(FIELD_PATH, J.List([J.Int(1)])), q);
    FieldTraces(q);
  }

  lemma {:induction false} OneOrNullTrace(q: string)
    ensures At(Walk(ONE_OR_NULL, ""), q) ==
      if q == FIELD_PATH then [Ensure("array"), ItemType("integer"), Observe(J.Null)]
      else if q == ITEM_PATH then [Observe(J.Int(1))] else ListUpdates(q)
  {
    PathsOfA();
    TwoObjects(J.List([J.Int(1)]), J.Null);
    AtList(Emit(FIELD_PATH, J.List([J.Int(1)])) + Emit(FIELD_PATH, J.Null), q);
    AtAppend(Emit(FIELD_PATH, J.List([J.Int(1)])), Emit(FIELD_PATH, J.Null), q);
    FieldTraces(q);
  }

  const ARRAY: NodeState := Fresh("array")

  /** An array's node, with its item type. */
  function ArrayNode(path: string, itemType: string, nullable: bool): Option<Node> {
    Some(Finalize(path, ARRAY.(itemType := Some(itemType), nullable := nullable)))
  }

  function EmptyListAt(path: string): Option<Node> {
    if path == LIST_PATH then ArrayNode(path, "object", false)
    else if path == FIELD_PATH then ArrayNode(path, "unknown", false) else None
  }

  function OneAt(path: string, nullable: bool): Option<Node> {
    if path == LIST_PATH then ArrayNode(path, "object", false)
    else if path == FIELD_PATH then ArrayNode(path, "integer", nullable)
    else if path == ITEM_PATH then Some(Finalize(path, Observed(None, J.Int(1)))) else None
  }

  /** Their nodes at each path. */
  lemma {:induction false} ThreeNodes(path: string)
    ensures Lookup(Infer(EMPTY_LIST), path) == EmptyListAt(path)
    ensures Lookup(Infer(ONE_OR_NULL), path) == OneAt(path, true)
    ensures Lookup(Infer(ONE), path) == OneAt(path, false)
  {
    EmptyListTrace(path);
    OneTrace(path);
    OneOrNullTrace(path);
    LookupInferred(EMPTY_LIST, path);
    LookupInferred(ONE, path);
    LookupInferred(ONE_OR_NULL, path);
    FoldedThree();
    PathsOfA();
  }

  lemma {:induction false} FoldedThree()
    ensures Folded(None, []) == None
    ensures forall t :: Folded(None, [Ensure("array"), ItemType(t)]) == Some(ARRAY.(itemType := Some(t)))
    ensures Folded(None, [Ensure("array"), ItemType("integer"), Observe(J.Null)]) == Some(ARRAY.(itemType := Some("integer"), nullable := true))
    ensures Folded(None, [Observe(J.Int(1))]) == Some(Observed(None, J.Int(1)))
  {
    forall t ensures Folded(None, [Ensure("array"), ItemType(t)]) == Some(ARRAY.(itemType := Some(t))) {
      assert [Ensure("array"), ItemType(t)][1..] == [ItemType(t)] && [ItemType(t)][1..] == [];
      assert Folded(Some(ARRAY), [ItemType(t)]) == Folded(Some(ARRAY.(itemType := Some(t))), []);
    }
    var us := [Ensure("array"), ItemType("integer"), Observe(J.Null)];
    assert us[1..] == [us[1], us[2]] && [us[1], us[2]][1..] == [us[2]] && [us[2]][1..] == [];
    var st := ARRAY.(itemType := Some("integer"));
    assert Folded(Some(ARRAY), [us[1], us[2]]) == Folded(Some(st), [us[2]]);
    assert Folded(Some(st), [us[2]]) == Folded(Some(st.(nullable := true)), []);
    assert [Observe(J.Int(1))][1..] == [];
    assert Folded(None, [Observe(J.Int(1))]) == Folded(Some(Observed(None, J.Int(1))), []);
  }

  lemma {:induction false} ArrayNodesChange(path: string, t: string, m: bool, u: string, n: bool)
    ensures ChangeOf(ArrayNode(path, t, m), ArrayNode(path, u, n)) ==
      if m != n then Some(if n then NullableAdded else NullableRemoved) else if t != u then Some(ArrayItemTypeChanged) else None
  {
  }

  lemma {:induction false} SameNodeIsQuiet(o: Option<Node>)
    ensures !BreakingChange(ChangeOf(o, o)) && !BreakingChange(ChangeOf(None, o))
  {
  }

  /** How the three responses change at each path. */
  lemma {:induction false} ThreeChanges(path: string)
    ensures !BreakingChange(ChangeOf(EmptyListAt(path), OneAt(path, true)))
    ensures !BreakingChange(ChangeOf(OneAt(path, true), OneAt(path, false)))
    ensures path == FIELD_PATH ==> BreakingChange(ChangeOf(EmptyListAt(path), OneAt(path, false)))
  {
    PathsOfA();
    assert "unknown"[0] != "integer"[0];
    ArrayNodesChange(path, "unknown", false, "integer", true);
    ArrayNodesChange(path, "integer", true, "integer", false);
    ArrayNodesChange(path, "unknown", false, "integer", false);
    SameNodeIsQuiet(OneAt(path, true));
    SameNodeIsQuiet(OneAt(path, false));
  }

  lemma {:induction false} LosesOne(x: seq<Node>, y: seq<Node>, z: seq<Node>)
    requires forall path :: Lookup(x, path) == EmptyListAt(path)
    requires forall path :: Lookup(y, path) == OneAt(path, true)
    requires forall path :: Lookup(z, path) == OneAt(path, false)
    ensures forall path :: !ReportsBreaking(x, y, path) && !ReportsBreaking(y, z, path)
    ensures ReportsBreaking(x, z, FIELD_PATH)
  {
    forall path ensures !ReportsBreaking(x, y, path) && !ReportsBreaking(y, z, path) {
      ThreeChanges(path);
      ReportsWhat(x, y, path);
      ReportsWhat(y, z, path);
    }
    ThreeChanges(FIELD_PATH);
    ReportsWhat(x, z, FIELD_PATH);
  }

  /** `[{"a": []}]`, then `[{"a": [1]}, {"a": null}]`, then `[{"a": [1]}]`: no consecutive
      pair reports a breaking change at any path, the first and the last do. */
  lemma {:induction false} ThreeResponsesLoseOne()
    ensures forall path :: !ReportsBreaking(Infer(EMPTY_LIST), Infer(ONE_OR_NULL), path)
    ensures forall path :: !ReportsBreaking(Infer(ONE_OR_NULL), Infer(ONE), path)
    ensures ReportsBreaking(Infer(EMPTY_LIST), Infer(ONE), FIELD_PATH)
  {
    forall path
      ensures Lookup(Infer(EMPTY_LIST), path) == EmptyListAt(path)
      ensures Lookup(Infer(ONE_OR_NULL), path) == OneAt(path, true) && Lookup(Infer(ONE), path) == OneAt(path, false)
    {
      ThreeNodes(path);
    }
    LosesOne(Infer(EMPTY_LIST), Infer(ONE_OR_NULL), Infer(ONE));
  }
}
