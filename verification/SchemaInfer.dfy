/** Schema inference for the scheduled monitor: the updates a document makes to the
    accumulators, path by path, and why the order of object keys does not matter. */
module SchemaInfer {
  import opened Texts
  import opened Paths
  import J = Json

  // ---- Accumulators ----

  const ENUM_THRESHOLD: nat := 10
  const EXAMPLE_MAX_LEN: nat := 200

  datatype NodeState = NodeState(
    typ: string, required: bool, nullable: bool, itemType: Option<string>,
    example: Option<J.Json>, enums: set<string>, enumDisabled: bool, stringLeaf: bool)

  datatype Node = Node(
    path: string, typ: string, required: bool, nullable: bool, itemType: Option<string>,
    enums: Option<seq<string>>, example: Option<J.Json>)

  datatype Update =
    | Ensure(typ: string)
    | Observe(value: J.Json)
    | ItemType(typ: string)
    | Optional

  /** One update of the accumulator of one path. */
  datatype Op = Op(path: string, update: Update)

  function ScalarType(v: J.Json): string {
    match v
    case Null => "null"
    case Bool(_) => "boolean"
    case Int(_) => "integer"
    case Float(_) => "number"
    case Str(_) => "string"
    case _ => "unknown"
  }

  function Fresh(typ: string): NodeState {
    NodeState(typ, true, false, None, None, {}, false, false)
  }

  function Ensured(st: Option<NodeState>, typ: string): NodeState {
    if st.Some? then st.value else Fresh(typ)
  }

  function Truncated(v: J.Json): J.Json {
    if v.Str? && |v.s| > EXAMPLE_MAX_LEN then J.Str(v.s[..EXAMPLE_MAX_LEN]) else v
  }

  function WithType(st: NodeState, t: string): NodeState {
    if st.typ == "null" then st.(typ := t, nullable := true)
    else if st.typ != t then st.(typ := "mixed")
    else st
  }

  function WithExample(st: NodeState, v: J.Json): NodeState {
    if st.example.None? then st.(example := Some(Truncated(v))) else st
  }

  function WithString(st: NodeState, s: string): NodeState {
    var leaf := st.(stringLeaf := true);
    if st.enumDisabled then leaf
    else if |st.enums + {s}| > ENUM_THRESHOLD then leaf.(enumDisabled := true, enums := {})
    else leaf.(enums := st.enums + {s})
  }

  function Observed(st: Option<NodeState>, v: J.Json): NodeState {
    var t := ScalarType(v);
    var s0 := Ensured(st, t);
    if v.Null? then s0.(nullable := true)
    else
      var s1 := WithExample(WithType(s0, t), v);
      if v.Str? then WithString(s1, v.s) else s1
  }

  /** The accumulator of a path after an update of it. */
  function Applied(st: Option<NodeState>, u: Update): Option<NodeState> {
    match u
    case Ensure(t) => Some(Ensured(st, t))
    case Observe(v) => Some(Observed(st, v))
    case ItemType(t) => if st.Some? then Some(st.value.(itemType := Some(t))) else None
    case Optional => if st.Some? then Some(st.value.(required := false)) else None
  }

  function Finalize(path: string, st: NodeState): Node {
    var enums := if st.stringLeaf && !st.enumDisabled && st.enums != {} then Some(SortedSet(st.enums)) else None;
    Node(path, st.typ, st.required, st.nullable, st.itemType, enums, st.example)
  }

  // ---- Paths ----

  function Join(parent: string, key: string): string { if parent != "" then parent + "." + key else key }

  function ArrayPath(parent: string): string { if parent != "" then parent + "[*]" else "[*]" }

  // ---- The updates a document makes ----

  predicate AllObjects(items: seq<J.Json>) { forall i | 0 <= i < |items| :: items[i].Object? }

  /** How many of the objects have each key, keys in the order first met. */
  datatype Tally = Tally(keys: seq<string>, counts: map<string, nat>)

  function Counted(t: Tally, k: string): Tally {
    if k in t.counts then t.(counts := t.counts[k := t.counts[k] + 1])
    else Tally(t.keys + [k], t.counts[k := 1])
  }

  function TallyFields(t: Tally, fs: seq<J.Field>): Tally
    decreases |fs|
  {
    if fs == [] then t else TallyFields(Counted(t, fs[0].key), fs[1..])
  }

  function TallyItems(t: Tally, items: seq<J.Json>): Tally
    requires AllObjects(items)
    decreases |items|
  {
    if items == [] then t else TallyItems(TallyFields(t, items[0].fields), items[1..])
  }

  /** A key some object lacks is optional. */
  function Optionals(keys: seq<string>, counts: map<string, nat>, n: nat, path: string): seq<Op> {
    if keys == [] then []
    else
      var rest := Optionals(keys[1..], counts, n, path);
      if keys[0] in counts && counts[keys[0]] < n then [Op(Join(path, keys[0]), Optional)] + rest else rest
  }

  function ItemTypes(items: seq<J.Json>): set<string> {
    set i | 0 <= i < |items| && !items[i].Null? :: ScalarType(items[i])
  }

  function OnlyMember(s: set<string>): string
    requires |s| == 1
  {
    Least(s)
  }

  function ArrayItemType(items: seq<J.Json>): string {
    var types := ItemTypes(items);
    if |types| == 1 then OnlyMember(types) else if types != {} then "mixed" else "null"
  }

  function Walk(v: J.Json, parent: string): seq<Op>
    decreases v, 2
  {
    match v
    case Object(fs) => (if parent != "" then [Op(parent, Ensure("object"))] else []) + EmitFields(fs, parent)
    case List(items) => [Op(if parent != "" then parent else "[*]", Ensure("array"))] + WalkItems(items, parent)
    case _ => [Op(if parent != "" then parent else "[root]", Observe(v))]
  }

  function WalkItems(items: seq<J.Json>, parent: string): seq<Op>
    decreases items, 1
  {
    var path := if parent != "" then parent else "[*]";
    if items == [] then [Op(path, ItemType("unknown"))]
    else if AllObjects(items) then
      var tally := TallyItems(Tally([], map[]), items);
      [Op(path, ItemType("object"))] + EmitObjects(items, ArrayPath(parent))
      + Optionals(tally.keys, tally.counts, |items|, ArrayPath(parent))
    else EmitItems(items, ArrayPath(parent)) + [Op(path, ItemType(ArrayItemType(items)))]
  }

  function Emit(path: string, v: J.Json): seq<Op>
    decreases v, 3
  {
    match v
    case Object(fs) => [Op(path, Ensure("object"))] + Walk(v, path)
    case List(items) => Walk(v, path)
    case _ => [Op(path, Observe(v))]
  }

  function EmitFields(fs: seq<J.Field>, parent: string): seq<Op>
    decreases fs, 0
  {
    if fs == [] then [] else Emit(Join(parent, fs[0].key), fs[0].value) + EmitFields(fs[1..], parent)
  }

  function EmitObjects(items: seq<J.Json>, path: string): seq<Op>
    requires AllObjects(items)
    decreases items, 0
  {
    if items == [] then [] else EmitFields(items[0].fields, path) + EmitObjects(items[1..], path)
  }

  function EmitItems(items: seq<J.Json>, path: string): seq<Op>
    decreases items, 0
  {
    if items == [] then [] else Emit(path, items[0]) + EmitItems(items[1..], path)
  }

  // ---- The result ----

  /** The updates of one path, in order. */
  function At(ops: seq<Op>, path: string): seq<Update> {
    if ops == [] then []
    else (if ops[0].path == path then [ops[0].update] else []) + At(ops[1..], path)
  }

  function Folded(st: Option<NodeState>, us: seq<Update>): Option<NodeState>
    decreases |us|
  {
    if us == [] then st else Folded(Applied(st, us[0]), us[1..])
  }

  /** The paths that have an accumulator. */
  function Touched(ops: seq<Op>): set<string> {
    set i | 0 <= i < |ops| && Folded(None, At(ops, ops[i].path)).Some? :: ops[i].path
  }

  function Nodes(ops: seq<Op>): (nodes: seq<Node>)
    ensures |nodes| == |Touched(ops)|
    ensures forall i | 0 <= i < |nodes| :: nodes[i].path == SortedSet(Touched(ops))[i]
  {
    var paths := SortedSet(Touched(ops));
    seq(|paths|, i requires 0 <= i < |paths| =>
      assert paths[i] in Touched(ops);
      Finalize(paths[i], Folded(None, At(ops, paths[i])).value))
  }

  lemma {:induction false} NodesAt(ops: seq<Op>, i: nat)
    requires i < |Nodes(ops)|
    ensures var path := SortedSet(Touched(ops))[i];
      && path in Touched(ops) && Folded(None, At(ops, path)).Some?
      && Nodes(ops)[i] == Finalize(path, Folded(None, At(ops, path)).value)
  {
    var paths := SortedSet(Touched(ops));
    assert paths[i] in paths;
  }

  /** The schema of a document: its accumulators, finished and sorted by path. */
  function Infer(v: J.Json): seq<Node> { Nodes(Walk(v, "")) }

  ghost predicate StrictlyByPath(nodes: seq<Node>) {
    forall i, j | 0 <= i < j < |nodes| :: AtMost(nodes[i].path, nodes[j].path) && nodes[i].path != nodes[j].path
  }

  /** The list is strictly sorted by path: no path twice. */
  lemma {:induction false} InferIsSorted(v: J.Json)
    ensures StrictlyByPath(Infer(v))
  {
    var paths := SortedSet(Touched(Walk(v, "")));
    forall i, j | 0 <= i < j < |Infer(v)| ensures
      AtMost(Infer(v)[i].path, Infer(v)[j].path) && Infer(v)[i].path != Infer(v)[j].path {
      assert Infer(v)[i].path == paths[i] && Infer(v)[j].path == paths[j];
    }
  }

  lemma {:induction false} AtAppend(a: seq<Op>, b: seq<Op>, q: string)
    ensures At(a + b, q) == At(a, q) + At(b, q)
  {
    if a == [] {
      assert a + b == b;
    } else {
      assert (a + b)[0] == a[0] && (a + b)[1..] == a[1..] + b;
      AtAppend(a[1..], b, q);
      var one := if a[0].path == q then [a[0].update] else [];
      assert one + (At(a[1..], q) + At(b, q)) == (one + At(a[1..], q)) + At(b, q);
    }
  }

  lemma {:induction false} AtOne(path: string, u: Update, q: string)
    ensures At([Op(path, u)], q) == if q == path then [u] else []
  {
    assert [Op(path, u)][1..] == [];
  }

  lemma {:induction false} AtNonempty(ops: seq<Op>, q: string)
    ensures At(ops, q) != [] <==> exists i | 0 <= i < |ops| :: ops[i].path == q
  {
    if ops != [] {
      AtNonempty(ops[1..], q);
      if exists i | 0 <= i < |ops| :: ops[i].path == q {
        var i :| 0 <= i < |ops| && ops[i].path == q;
        assert i > 0 ==> ops[1..][i - 1] == ops[i];
      }
    }
  }

  /** Traces with the same updates at every path give the same schema. */
  lemma {:induction false} SameUpdatesSameNodes(a: seq<Op>, b: seq<Op>)
    requires forall q :: At(a, q) == At(b, q)
    ensures Nodes(a) == Nodes(b)
  {
    forall q ensures q in Touched(a) <==> q in Touched(b) {
      AtNonempty(a, q);
      AtNonempty(b, q);
      TouchedHas(a, q);
      TouchedHas(b, q);
    }
    assert Touched(a) == Touched(b);
    forall i | 0 <= i < |Nodes(a)| ensures Nodes(a)[i] == Nodes(b)[i] {
      assert At(a, SortedSet(Touched(a))[i]) == At(b, SortedSet(Touched(a))[i]);
    }
  }

  lemma {:induction false} TouchedHas(ops: seq<Op>, q: string)
    ensures q in Touched(ops) <==> Folded(None, At(ops, q)).Some?
  {
    if Folded(None, At(ops, q)).Some? {
      AtNonempty(ops, q);
      var i :| 0 <= i < |ops| && ops[i].path == q;
      assert ops[i].path in Touched(ops);
    }
  }
}
