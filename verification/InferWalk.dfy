/** Inference as it runs: a dictionary of accumulators that the walk over a document
    updates in place, and the proof that it ends as the updates of each path say. */
module InferWalk {
  import opened Texts
  import opened SchemaInfer
  import J = Json

  function Get(states: map<string, NodeState>, path: string): Option<NodeState> {
    if path in states then Some(states[path]) else None
  }

  function Step(states: map<string, NodeState>, op: Op): map<string, NodeState> {
    var st := Applied(Get(states, op.path), op.update);
    if st.Some? then states[op.path := st.value] else states
  }

  function Run(states: map<string, NodeState>, ops: seq<Op>): map<string, NodeState>
    decreases |ops|
  {
    if ops == [] then states else Run(Step(states, ops[0]), ops[1..])
  }

  lemma {:induction false} RunOne(states: map<string, NodeState>, op: Op)
    ensures Run(states, [op]) == Step(states, op)
  {
    assert [op][1..] == [] && Run(Step(states, op), []) == Step(states, op);
  }

  lemma {:induction false} RunAppend(states: map<string, NodeState>, a: seq<Op>, b: seq<Op>)
    ensures Run(states, a + b) == Run(Run(states, a), b)
    decreases |a|
  {
    if a == [] {
      assert a + b == b;
    } else {
      assert (a + b)[0] == a[0] && (a + b)[1..] == a[1..] + b;
      RunAppend(Step(states, a[0]), a[1..], b);
    }
  }

  /** After any updates, a path's accumulator is the fold of that path's updates. */
  lemma {:induction false} RunAt(states: map<string, NodeState>, ops: seq<Op>, q: string)
    ensures Get(Run(states, ops), q) == Folded(Get(states, q), At(ops, q))
    decreases |ops|
  {
    if ops != [] {
      RunAt(Step(states, ops[0]), ops[1..], q);
      var rest, u := At(ops[1..], q), ops[0].update;
      if ops[0].path == q {
        assert At(ops, q) == [u] + rest && ([u] + rest)[1..] == rest;
        assert Get(Step(states, ops[0]), q) == Applied(Get(states, q), u);
      } else {
        assert At(ops, q) == [] + rest == rest;
      }
    }
  }

  class Inference {
    var states: map<string, NodeState>

    constructor ()
      ensures states == map[]
    {
      states := map[];
    }

    method Ensure(path: string, typ: string)
      modifies this
      ensures states == Step(old(states), Op(path, SchemaInfer.Ensure(typ))) && path in states
    {
      if path !in states {
        states := states[path := Fresh(typ)];
      } else {
        assert states[path := states[path]] == states;
      }
    }

    /** One scalar observed at a path. */
    method EmitScalar(path: string, v: J.Json)
      requires J.IsScalar(v)
      modifies this
      ensures states == Step(old(states), Op(path, Observe(v)))
    {
      var t := ScalarType(v);
      Ensure(path, t);
      var st := states[path];
      if v.Null? {
        states := states[path := st.(nullable := true)];
        return;
      }
      st := AddValue(st, t, v);
      if v.Str? {
        st := AddString(st, v.s);
      }
      states := states[path := st];
    }

    method EmitValue(path: string, v: J.Json)
      modifies this
      ensures states == Run(old(states), Emit(path, v))
      decreases v, 3
    {
      if v.Object? {
        Ensure(path, "object");
        RunOne(old(states), Op(path, SchemaInfer.Ensure("object")));
        WalkValue(v, path);
        RunAppend(old(states), [Op(path, SchemaInfer.Ensure("object"))], Walk(v, path));
      } else if v.List? {
        WalkValue(v, path);
      } else {
        EmitScalar(path, v);
        RunOne(old(states), Op(path, Observe(v)));
      }
    }

    method WalkFields(fs: seq<J.Field>, parent: string)
      modifies this
      ensures states == Run(old(states), EmitFields(fs, parent))
      decreases fs, 4
    {
      ghost var s := states;
      for i := 0 to |fs|
        invariant Run(states, EmitFields(fs[i..], parent)) == Run(s, EmitFields(fs, parent))
      {
        ghost var first := Emit(Join(parent, fs[i].key), fs[i].value);
        RunAppend(states, first, EmitFields(fs[i + 1..], parent));
        assert fs[i..][1..] == fs[i + 1..];
        EmitValue(Join(parent, fs[i].key), fs[i].value);
      }
    }

    method WalkValue(v: J.Json, parent: string)
      modifies this
      ensures states == Run(old(states), Walk(v, parent))
      decreases v, 2
    {
      ghost var s := states;
      match v
      case Object(fs) =>
        ghost var head := if parent != "" then [Op(parent, SchemaInfer.Ensure("object"))] else [];
        if parent != "" {
          Ensure(parent, "object");
          RunOne(s, Op(parent, SchemaInfer.Ensure("object")));
        }
        RunAppend(s, head, EmitFields(fs, parent));
        WalkFields(fs, parent);
      case List(items) =>
        var path := if parent != "" then parent else "[*]";
        Ensure(path, "array");
        RunOne(s, Op(path, SchemaInfer.Ensure("array")));
        RunAppend(s, [Op(path, SchemaInfer.Ensure("array"))], WalkItems(items, parent));
        WalkArray(items, path, parent);
      case _ =>
        EmitScalar(if parent != "" then parent else "[root]", v);
        RunOne(s, Op(if parent != "" then parent else "[root]", Observe(v)));
    }

    method SetItemType(path: string, typ: string)
      requires path in states
      modifies this
      ensures states == Step(old(states), Op(path, ItemType(typ)))
    {
      states := states[path := states[path].(itemType := Some(typ))];
    }

    /** The items of an array whose accumulator exists. */
    method WalkArray(items: seq<J.Json>, path: string, parent: string)
      requires path in states && path == if parent != "" then parent else "[*]"
      modifies this
      ensures states == Run(old(states), WalkItems(items, parent))
      decreases items, 6
    {
      ghost var s := states;
      var itemPath := ArrayPath(parent);
      if items == [] {
        SetItemType(path, "unknown");
        RunOne(s, Op(path, ItemType("unknown")));
      } else if AllObjects(items) {
        SetItemType(path, "object");
        RunOne(s, Op(path, ItemType("object")));
        WalkObjects(items, itemPath);
        var tally := CountKeys(items);
        MarkOptionals(tally.keys, tally.counts, |items|, itemPath);
        ghost var head, body, tail := [Op(path, ItemType("object"))], EmitObjects(items, itemPath),
          Optionals(tally.keys, tally.counts, |items|, itemPath);
        RunAppend(s, head + body, tail);
        RunAppend(s, head, body);
      } else {
        EachItem(items, itemPath);
        RunKeeps(s, EmitItems(items, itemPath), path);
        var typ := ArrayItemType(items);
        SetItemType(path, typ);
        RunAppend(s, EmitItems(items, itemPath), [Op(path, ItemType(typ))]);
        RunOne(Run(s, EmitItems(items, itemPath)), Op(path, ItemType(typ)));
      }
    }

    method WalkObjects(items: seq<J.Json>, path: string)
      requires AllObjects(items)
      modifies this
      ensures states == Run(old(states), EmitObjects(items, path))
      decreases items, 5
    {
      ghost var s := states;
      for i := 0 to |items|
        invariant Run(states, EmitObjects(items[i..], path)) == Run(s, EmitObjects(items, path))
      {
        assert items[i..][0] == items[i] && items[i..][1..] == items[i + 1..];
        RunAppend(states, EmitFields(items[i].fields, path), EmitObjects(items[i + 1..], path));
        WalkFields(items[i].fields, path);
      }
    }

    method EachItem(items: seq<J.Json>, path: string)
      modifies this
      ensures states == Run(old(states), EmitItems(items, path))
      decreases items, 5
    {
      ghost var s := states;
      for i := 0 to |items|
        invariant Run(states, EmitItems(items[i..], path)) == Run(s, EmitItems(items, path))
      {
        assert items[i..][0] == items[i] && items[i..][1..] == items[i + 1..];
        RunAppend(states, Emit(path, items[i]), EmitItems(items[i + 1..], path));
        EmitValue(path, items[i]);
      }
    }

    method MarkOptionals(keys: seq<string>, counts: map<string, nat>, n: nat, path: string)
      modifies this
      ensures states == Run(old(states), Optionals(keys, counts, n, path))
    {
      ghost var s := states;
      for i := 0 to |keys|
        invariant Run(states, Optionals(keys[i..], counts, n, path)) == Run(s, Optionals(keys, counts, n, path))
      {
        assert keys[i..][0] == keys[i] && keys[i..][1..] == keys[i + 1..];
        var node := Join(path, keys[i]);
        OptionalStep(states, keys, i, counts, n, path);
        if keys[i] in counts && counts[keys[i]] < n && node in states {
          states := states[node := states[node].(required := false)];
        }
      }
    }

    /** The whole inference: the nodes are those of the document's schema. */
    method InferSchema(v: J.Json) returns (nodes: seq<Node>)
      requires states == map[]
      modifies this
      ensures nodes == Infer(v)
    {
      WalkValue(v, "");
      nodes := FinishNodes(states, v);
    }
  }

  /** Finishes the accumulators of the given paths. */
  method FinishEach(states: map<string, NodeState>, paths: seq<string>) returns (nodes: seq<Node>)
    requires forall i | 0 <= i < |paths| :: paths[i] in states
    ensures |nodes| == |paths| && forall i | 0 <= i < |paths| :: nodes[i] == Finalize(paths[i], states[paths[i]])
  {
    nodes := [];
    for i := 0 to |paths|
      invariant |nodes| == i && forall j | 0 <= j < i :: nodes[j] == Finalize(paths[j], states[paths[j]])
    {
      nodes := nodes + [Finalize(paths[i], states[paths[i]])];
    }
  }

  /** Finishes the accumulators a document left, sorted by path. */
  method FinishNodes(states: map<string, NodeState>, ghost v: J.Json) returns (nodes: seq<Node>)
    requires states == Run(map[], Walk(v, ""))
    ensures nodes == Infer(v)
  {
    StatesOfDocument(v, states);
    FinishedNodes(v, states);
    nodes := FinishEach(states, SortedSet(states.Keys));
  }

  /** Counts, key by key and object by object, how many objects have each key. */
  method CountKeys(items: seq<J.Json>) returns (tally: Tally)
    requires AllObjects(items)
    ensures tally == TallyItems(Tally([], map[]), items)
  {
    tally := Tally([], map[]);
    for i := 0 to |items|
      invariant TallyItems(tally, items[i..]) == TallyItems(Tally([], map[]), items)
    {
      var fs := items[i].fields;
      assert items[i..][0] == items[i] && items[i..][1..] == items[i + 1..];
      ghost var before := tally;
      for j := 0 to |fs|
        invariant TallyFields(tally, fs[j..]) == TallyFields(before, fs)
      {
        assert fs[j..][1..] == fs[j + 1..];
        tally := Counted(tally, fs[j].key);
      }
    }
  }

  method AddValue(before: NodeState, t: string, v: J.Json) returns (st: NodeState)
    ensures st == WithExample(WithType(before, t), v)
  {
    st := before;
    if st.typ == "null" {
      st := st.(typ := t, nullable := true);
    } else if st.typ != t {
      st := st.(typ := "mixed");
    }
    if st.example.None? {
      st := st.(example := Some(Truncated(v)));
    }
  }

  method AddString(before: NodeState, s: string) returns (st: NodeState)
    ensures st == WithString(before, s)
  {
    st := before.(stringLeaf := true);
    if !st.enumDisabled {
      st := st.(enums := st.enums + {s});
      if |st.enums| > ENUM_THRESHOLD {
        st := st.(enumDisabled := true, enums := {});
      }
    }
  }

  lemma {:induction false} RunKeeps(states: map<string, NodeState>, ops: seq<Op>, path: string)
    requires path in states
    ensures path in Run(states, ops)
    decreases |ops|
  {
    if ops != [] { RunKeeps(Step(states, ops[0]), ops[1..], path); }
  }

  lemma {:induction false} OptionalStep(states: map<string, NodeState>, keys: seq<string>, i: nat,
                                        counts: map<string, nat>, n: nat, path: string)
    requires i < |keys|
    ensures var q := Join(path, keys[i]);
      Run(states, Optionals(keys[i..], counts, n, path)) ==
      Run(if keys[i] in counts && counts[keys[i]] < n && q in states
          then states[q := states[q].(required := false)] else states, Optionals(keys[i + 1..], counts, n, path))
  {
    assert keys[i..][0] == keys[i] && keys[i..][1..] == keys[i + 1..];
    var q, rest := Join(path, keys[i]), Optionals(keys[i + 1..], counts, n, path);
    assert ([Op(q, Optional)] + rest)[0] == Op(q, Optional) && ([Op(q, Optional)] + rest)[1..] == rest;
  }

  lemma {:induction false} StatesOfDocument(v: J.Json, states: map<string, NodeState>)
    requires states == Run(map[], Walk(v, ""))
    ensures states.Keys == Touched(Walk(v, ""))
  {
    forall q ensures q in states <==> q in Touched(Walk(v, "")) {
      RunAt(map[], Walk(v, ""), q);
      TouchedHas(Walk(v, ""), q);
    }
  }

  /** Finished in path order, the accumulators of a document are its schema. */
  lemma {:induction false} FinishedNodes(v: J.Json, states: map<string, NodeState>)
    requires states == Run(map[], Walk(v, "")) && states.Keys == Touched(Walk(v, ""))
    ensures var paths := SortedSet(states.Keys);
      |Infer(v)| == |paths| && forall i | 0 <= i < |paths| :: paths[i] in states && Infer(v)[i] == Finalize(paths[i], states[paths[i]])
  {
    forall i | 0 <= i < |Infer(v)| ensures var path := SortedSet(states.Keys)[i]; path in states && Infer(v)[i] == Finalize(path, states[path]) {
      NodeAt(v, states, i);
    }
  }

  lemma {:induction false} NodeAt(v: J.Json, states: map<string, NodeState>, i: nat)
    requires states == Run(map[], Walk(v, "")) && states.Keys == Touched(Walk(v, "")) && i < |Infer(v)|
    ensures var path := SortedSet(states.Keys)[i];
      path in states && Infer(v)[i] == Finalize(path, states[path])
  {
    NodesAt(Walk(v, ""), i);
    RunAt(map[], Walk(v, ""), SortedSet(Touched(Walk(v, "")))[i]);
  }
}
