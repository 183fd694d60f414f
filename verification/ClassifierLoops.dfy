/** The loops of the runtime classifier, as the source runs them, proved
    against the functions the other modules reason about. */
module ClassifierLoops {
  import opened Texts
  import opened Paths
  import opened Severities
  import opened Classifier
  import opened Drift
  import opened VersionChain

  lemma {:induction false} UpdateAssociates<V>(a: map<string, V>, b: map<string, V>, c: map<string, V>)
    ensures (a + b) + c == a + (b + c)
  {
  }

  /** Builds the flat dictionary by updating it with each child's in turn. */
  method FlattenLoop(schema: Schema, prefix: string) returns (flat: map<string, Schema>)
    ensures flat == Flatten(schema, prefix)
    decreases schema
  {
    flat := map[];
    match schema {
      case Leaf(_, _, _, _) =>
        flat := flat[Slot(prefix) := schema];
      case Dict(ms) =>
        if Typed(ms) {
          flat := flat[Slot(prefix) := schema];
          return;
        }
        for i := 0 to |ms|
          invariant flat + FlattenMembers(ms[i..], prefix) == FlattenMembers(ms, prefix)
        {
          var child := FlattenLoop(ms[i].value, Extend(prefix, Key(ms[i].key)));
          assert ms[i..][0] == ms[i] && ms[i..][1..] == ms[i + 1..];
          UpdateAssociates(flat, child, FlattenMembers(ms[i + 1..], prefix));
          flat := flat + child;
        }
        assert ms[|ms|..] == [];
      case ListOf(items) =>
        flat := flat[Slot(prefix) := ARRAY_ENTRY];
        assert flat == map[Slot(prefix) := ARRAY_ENTRY];
        for i := 0 to |items|
          invariant flat + FlattenItems(items[i..], prefix, i) == Flatten(schema, prefix)
        {
          var child := FlattenLoop(items[i], Extend(prefix, Index(i)));
          assert items[i..][0] == items[i] && items[i..][1..] == items[i + 1..];
          UpdateAssociates(flat, child, FlattenItems(items[i + 1..], prefix, i + 1));
          flat := flat + child;
        }
        assert items[|items|..] == [];
    }
  }

  lemma {:induction false} DiffAlongStep(paths: seq<string>, i: nat, o: map<string, Schema>, n: map<string, Schema>, done: seq<DiffItem>)
    requires i < |paths|
    ensures var x, y := Get(o, paths[i]), Get(n, paths[i]);
      done + DiffAlong(paths[i..], o, n)
        == (if x == y then done else done + [ItemFor(paths[i], x, y)]) + DiffAlong(paths[i + 1..], o, n)
  {
    assert paths[i..][0] == paths[i] && paths[i..][1..] == paths[i + 1..];
  }

  /** Walks the sorted union of the two key sets, appending an item where the sides differ. */
  method DiffAndClassify(before: Schema, after: Schema) returns (diffs: seq<DiffItem>)
    ensures diffs == Diff(before, after)
  {
    var o := FlattenLoop(before, "");
    var n := FlattenLoop(after, "");
    var paths := SortedSet(o.Keys + n.Keys);
    diffs := AppendDiffs(paths, o, n);
  }

  method AppendDiffs(paths: seq<string>, o: map<string, Schema>, n: map<string, Schema>) returns (diffs: seq<DiffItem>)
    ensures diffs == DiffAlong(paths, o, n)
  {
    diffs := [];
    for i := 0 to |paths|
      invariant diffs + DiffAlong(paths[i..], o, n) == DiffAlong(paths, o, n)
    {
      var x, y := Get(o, paths[i]), Get(n, paths[i]);
      DiffAlongStep(paths, i, o, n, diffs);
      if x != y {
        diffs := diffs + [ItemFor(paths[i], x, y)];
      }
    }
    assert paths[|paths|..] == [];
  }
}
