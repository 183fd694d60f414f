/** The monitor's diff of two inferred schemas: one item per path that changed, with
    the change's kind and the severity the table gives it. */
module SchemaDiff {
  import opened Texts
  import opened SchemaInfer
  import J = Json

  datatype Level = Breaking | Risky | Safe

  datatype Change =
    | RemovedField | AddedField | TypeChanged | IntToNumber | NumberToInt
    | NullableAdded | NullableRemoved | EnumExpanded | EnumNarrowed | EnumChanged
    | NestedObjectRemoved | ArrayItemTypeChanged

  datatype Diff = Diff(
    severity: Level, change: Change, path: string, oldType: Option<string>, newType: Option<string>,
    oldValue: Option<J.Json>, newValue: Option<J.Json>)

  /** The severity table. */
  function Classify(c: Change): Level {
    match c
    case RemovedField => Breaking
    case AddedField => Safe
    case TypeChanged => Breaking
    case IntToNumber => Risky
    case NumberToInt => Breaking
    case NullableAdded => Risky
    case NullableRemoved => Safe
    case EnumExpanded => Risky
    case EnumNarrowed => Safe
    case EnumChanged => Risky
    case NestedObjectRemoved => Breaking
    case ArrayItemTypeChanged => Breaking
  }

  function SetOf(s: seq<string>): set<string> { set x | x in s }

  /** Both sides list their values, and not the same ones. */
  predicate EnumsDiffer(o: Node, n: Node) {
    o.enums.Some? && n.enums.Some? && SetOf(o.enums.value) != SetOf(n.enums.value)
  }

  function EnumChange(before: set<string>, after: set<string>): Change {
    if before < after then EnumExpanded else if after < before then EnumNarrowed else EnumChanged
  }

  /** The first kind of change that applies, if any. */
  function PickChange(o: Node, n: Node): Option<Change> {
    if o.typ != n.typ then
      if o.typ == "integer" && n.typ == "number" then Some(IntToNumber)
      else if o.typ == "number" && n.typ == "integer" then Some(NumberToInt)
      else Some(TypeChanged)
    else if o.nullable != n.nullable then Some(if n.nullable then NullableAdded else NullableRemoved)
    else if EnumsDiffer(o, n) then Some(EnumChange(SetOf(o.enums.value), SetOf(n.enums.value)))
    else if o.typ == "array" && o.itemType != n.itemType then Some(ArrayItemTypeChanged)
    else None
  }

  /** The kind of the same change seen from the other side. */
  function Undone(c: Change): Change {
    match c
    case IntToNumber => NumberToInt
    case NumberToInt => IntToNumber
    case NullableAdded => NullableRemoved
    case NullableRemoved => NullableAdded
    case EnumExpanded => EnumNarrowed
    case EnumNarrowed => EnumExpanded
    case _ => c
  }

  /** A path changes in one direction exactly when it does in the other, by the opposite kind. */
  lemma {:induction false} ChangesUndo(o: Node, n: Node)
    ensures PickChange(n, o) == (if PickChange(o, n).Some? then Some(Undone(PickChange(o, n).value)) else None)
  {
    if o.enums.Some? && n.enums.Some? {
      var a, b := SetOf(o.enums.value), SetOf(n.enums.value);
      assert !(a < b && b < a);
    }
  }

  /** What the kinds mean, and that nothing is reported exactly for nodes that agree in
      type, nullability, the values both list, and the item type of an array. */
  lemma {:induction false} ChangesMean(o: Node, n: Node)
    ensures PickChange(o, n) == Some(NullableAdded) ==> n.nullable && !o.nullable
    ensures PickChange(o, n) == Some(EnumExpanded) ==> o.enums.Some? && n.enums.Some? && SetOf(o.enums.value) < SetOf(n.enums.value)
    ensures PickChange(o, n) == Some(IntToNumber) <==> o.typ == "integer" && n.typ == "number"
    ensures PickChange(o, n).None? <==>
      o.typ == n.typ && o.nullable == n.nullable && !EnumsDiffer(o, n) && (o.typ == "array" ==> o.itemType == n.itemType)
  {
  }

  /** `{n.path: n for n in nodes}`: the last node of a path wins. */
  function ByPath(nodes: seq<Node>): map<string, Node> {
    if nodes == [] then map[]
    else var n := |nodes| - 1; ByPath(nodes[..n])[nodes[n].path := nodes[n]]
  }

  /** Of several nodes of a path the last one counts. */
  lemma {:induction false} LastNodeCounts(nodes: seq<Node>, i: nat)
    requires i < |nodes| && forall j | i < j < |nodes| :: nodes[j].path != nodes[i].path
    ensures Get(ByPath(nodes), nodes[i].path) == Some(nodes[i])
  {
    var n := |nodes| - 1;
    if i < n {
      LastNodeCounts(nodes[..n], i);
      assert nodes[..n][i] == nodes[i];
    }
  }

  function Get(nodes: map<string, Node>, path: string): Option<Node> {
    if path in nodes then Some(nodes[path]) else None
  }

  /** How a path changed, given its node on either side. */
  function ChangeOf(o: Option<Node>, n: Option<Node>): Option<Change> {
    if o.None? then if n.None? then None else Some(AddedField)
    else if n.None? then Some(if o.value.typ == "object" then NestedObjectRemoved else RemovedField)
    else PickChange(o.value, n.value)
  }

  function TypeOf(o: Option<Node>): Option<string> { if o.Some? then Some(o.value.typ) else None }

  /** Examples are kept when the path is on both sides. */
  function Item(path: string, change: Change, o: Option<Node>, n: Option<Node>): Diff {
    var both := o.Some? && n.Some?;
    Diff(Classify(change), change, path, TypeOf(o), TypeOf(n),
         if both then o.value.example else None, if both then n.value.example else None)
  }

  /** What the diff says about one path. */
  function ItemAt(o: map<string, Node>, n: map<string, Node>, path: string): seq<Diff> {
    var change := ChangeOf(Get(o, path), Get(n, path));
    if change.None? then [] else [Item(path, change.value, Get(o, path), Get(n, path))]
  }

  function ItemsAt(o: map<string, Node>, n: map<string, Node>, paths: seq<string>): seq<Diff> {
    if paths == [] then [] else ItemAt(o, n, paths[0]) + ItemsAt(o, n, paths[1..])
  }

  function DiffMaps(o: map<string, Node>, n: map<string, Node>): seq<Diff> {
    ItemsAt(o, n, SortedSet(o.Keys - n.Keys)) + ItemsAt(o, n, SortedSet(n.Keys - o.Keys))
    + ItemsAt(o, n, SortedSet(o.Keys * n.Keys))
  }

  function DiffSchemas(before: seq<Node>, after: seq<Node>): seq<Diff> { DiffMaps(ByPath(before), ByPath(after)) }

  // ---- What the diff reports ----

  lemma {:induction false} ItemsAtSound(o: map<string, Node>, n: map<string, Node>, paths: seq<string>)
    ensures forall i | 0 <= i < |ItemsAt(o, n, paths)| ::
      var d := ItemsAt(o, n, paths)[i]; d.path in paths && ItemAt(o, n, d.path) == [d]
  {
    if paths != [] { ItemsAtSound(o, n, paths[1..]); }
  }

  lemma {:induction false} ItemsAtComplete(o: map<string, Node>, n: map<string, Node>, paths: seq<string>, path: string)
    requires path in paths
    ensures forall d | d in ItemAt(o, n, path) :: d in ItemsAt(o, n, paths)
  {
    if path != paths[0] { ItemsAtComplete(o, n, paths[1..], path); }
  }

  lemma {:induction false} DiffSound(o: map<string, Node>, n: map<string, Node>, d: Diff)
    requires d in DiffMaps(o, n)
    ensures ItemAt(o, n, d.path) == [d]
  {
    var x, y, z := ItemsAt(o, n, SortedSet(o.Keys - n.Keys)), ItemsAt(o, n, SortedSet(n.Keys - o.Keys)), ItemsAt(o, n, SortedSet(o.Keys * n.Keys));
    assert d in x || d in y || d in z by { assert DiffMaps(o, n) == x + y + z; }
    if d in x { ItemsAtTrue(o, n, SortedSet(o.Keys - n.Keys), d); }
    if d in y { ItemsAtTrue(o, n, SortedSet(n.Keys - o.Keys), d); }
    if d in z { ItemsAtTrue(o, n, SortedSet(o.Keys * n.Keys), d); }
  }

  lemma {:induction false} ItemsAtTrue(o: map<string, Node>, n: map<string, Node>, paths: seq<string>, d: Diff)
    requires d in ItemsAt(o, n, paths)
    ensures ItemAt(o, n, d.path) == [d]
  {
    ItemsAtSound(o, n, paths);
  }

  lemma {:induction false} ListedIn(keys: set<string>, path: string)
    requires path in keys
    ensures path in SortedSet(keys)
  {
    assert path in set x | x in SortedSet(keys);
  }

  lemma {:induction false} DiffComplete(o: map<string, Node>, n: map<string, Node>, path: string)
    ensures forall d | d in ItemAt(o, n, path) :: d in DiffMaps(o, n)
  {
    if path in o && path !in n {
      ListedIn(o.Keys - n.Keys, path);
      ItemsAtComplete(o, n, SortedSet(o.Keys - n.Keys), path);
    } else if path !in o && path in n {
      ListedIn(n.Keys - o.Keys, path);
      ItemsAtComplete(o, n, SortedSet(n.Keys - o.Keys), path);
    } else if path in o && path in n {
      ListedIn(o.Keys * n.Keys, path);
      ItemsAtComplete(o, n, SortedSet(o.Keys * n.Keys), path);
    }
  }

  /** An item is reported exactly when it is what its path's two nodes say. */
  lemma {:induction false} DiffReports(before: seq<Node>, after: seq<Node>, d: Diff)
    ensures d in DiffSchemas(before, after) <==> ItemAt(ByPath(before), ByPath(after), d.path) == [d]
  {
    if d in DiffSchemas(before, after) { DiffSound(ByPath(before), ByPath(after), d); }
    DiffComplete(ByPath(before), ByPath(after), d.path);
    assert ItemAt(ByPath(before), ByPath(after), d.path) == [d] ==> d in ItemAt(ByPath(before), ByPath(after), d.path) by {
      assert [d][0] == d;
    }
  }

  ghost predicate OncePerPath(ds: seq<Diff>) { forall i, j | 0 <= i < j < |ds| :: ds[i].path != ds[j].path }

  lemma {:induction false} ItemsOnce(o: map<string, Node>, n: map<string, Node>, paths: seq<string>)
    requires StrictlySorted(paths)
    ensures OncePerPath(ItemsAt(o, n, paths))
  {
    if paths != [] {
      ItemsOnce(o, n, paths[1..]);
      ItemsAtSound(o, n, paths[1..]);
      assert paths[0] !in paths[1..];
    }
  }

  lemma {:induction false} OnceAppend(a: seq<Diff>, b: seq<Diff>)
    requires OncePerPath(a) && OncePerPath(b) && forall i, j | 0 <= i < |a| && 0 <= j < |b| :: a[i].path != b[j].path
    ensures OncePerPath(a + b)
  {
  }

  /** No path is reported twice. */
  lemma {:induction false} DiffOncePerPath(before: seq<Node>, after: seq<Node>)
    ensures OncePerPath(DiffSchemas(before, after))
  {
    var o, n := ByPath(before), ByPath(after);
    var p1, p2, p3 := SortedSet(o.Keys - n.Keys), SortedSet(n.Keys - o.Keys), SortedSet(o.Keys * n.Keys);
    ItemsOnce(o, n, p1);
    ItemsOnce(o, n, p2);
    ItemsOnce(o, n, p3);
    GroupKeys(o, n, o.Keys - n.Keys);
    GroupKeys(o, n, n.Keys - o.Keys);
    GroupKeys(o, n, o.Keys * n.Keys);
    OnceAppend(ItemsAt(o, n, p1), ItemsAt(o, n, p2));
    OnceAppend(ItemsAt(o, n, p1) + ItemsAt(o, n, p2), ItemsAt(o, n, p3));
  }

  lemma {:induction false} GroupKeys(o: map<string, Node>, n: map<string, Node>, keys: set<string>)
    ensures forall i | 0 <= i < |ItemsAt(o, n, SortedSet(keys))| :: ItemsAt(o, n, SortedSet(keys))[i].path in keys
  {
    ItemsAtSound(o, n, SortedSet(keys));
  }

  // ---- The loops ----

  lemma {:induction false} ItemsStep(o: map<string, Node>, n: map<string, Node>, paths: seq<string>, i: nat, done: seq<Diff>)
    requires i < |paths|
    ensures done + ItemsAt(o, n, paths[i..]) == (done + ItemAt(o, n, paths[i])) + ItemsAt(o, n, paths[i + 1..])
  {
    assert paths[i..][0] == paths[i] && paths[i..][1..] == paths[i + 1..];
  }

  ghost predicate AllIn(paths: seq<string>, keys: set<string>) { forall i | 0 <= i < |paths| :: paths[i] in keys }

  lemma {:induction false} SortedIn(keys: set<string>)
    ensures AllIn(SortedSet(keys), keys)
  {
    var paths := SortedSet(keys);
    forall i | 0 <= i < |paths| ensures paths[i] in keys { assert paths[i] in set x | x in paths; }
  }

  method AddRemoved(o: map<string, Node>, n: map<string, Node>, paths: seq<string>, before: seq<Diff>) returns (diffs: seq<Diff>)
    requires AllIn(paths, o.Keys - n.Keys)
    ensures diffs == before + ItemsAt(o, n, paths)
  {
    diffs := before;
    for i := 0 to |paths|
      invariant diffs + ItemsAt(o, n, paths[i..]) == before + ItemsAt(o, n, paths)
    {
      ItemsStep(o, n, paths, i, diffs);
      var node := o[paths[i]];
      var change := if node.typ == "object" then NestedObjectRemoved else RemovedField;
      diffs := diffs + [Diff(Classify(change), change, paths[i], Some(node.typ), None, None, None)];
    }
  }

  method AddAdded(o: map<string, Node>, n: map<string, Node>, paths: seq<string>, before: seq<Diff>) returns (diffs: seq<Diff>)
    requires AllIn(paths, n.Keys - o.Keys)
    ensures diffs == before + ItemsAt(o, n, paths)
  {
    diffs := before;
    for i := 0 to |paths|
      invariant diffs + ItemsAt(o, n, paths[i..]) == before + ItemsAt(o, n, paths)
    {
      ItemsStep(o, n, paths, i, diffs);
      diffs := diffs + [Diff(Classify(AddedField), AddedField, paths[i], None, Some(n[paths[i]].typ), None, None)];
    }
  }

  method AddChanged(o: map<string, Node>, n: map<string, Node>, paths: seq<string>, before: seq<Diff>) returns (diffs: seq<Diff>)
    requires AllIn(paths, o.Keys * n.Keys)
    ensures diffs == before + ItemsAt(o, n, paths)
  {
    diffs := before;
    for i := 0 to |paths|
      invariant diffs + ItemsAt(o, n, paths[i..]) == before + ItemsAt(o, n, paths)
    {
      ItemsStep(o, n, paths, i, diffs);
      var a, b := o[paths[i]], n[paths[i]];
      var change := PickChange(a, b);
      if change.Some? {
        diffs := diffs + [Diff(Classify(change.value), change.value, paths[i], Some(a.typ), Some(b.typ), a.example, b.example)];
      }
    }
  }

  /** The three loops compute the diff. */
  method ComputeDiff(before: seq<Node>, after: seq<Node>) returns (diffs: seq<Diff>)
    ensures diffs == DiffSchemas(before, after)
  {
    var o, n := ByPath(before), ByPath(after);
    var removed, added, common := SortedSet(o.Keys - n.Keys), SortedSet(n.Keys - o.Keys), SortedSet(o.Keys * n.Keys);
    SortedIn(o.Keys - n.Keys);
    SortedIn(n.Keys - o.Keys);
    SortedIn(o.Keys * n.Keys);
    diffs := AddRemoved(o, n, removed, []);
    assert diffs == ItemsAt(o, n, removed);
    diffs := AddAdded(o, n, added, diffs);
    diffs := AddChanged(o, n, common, diffs);
  }

  // ---- Breaking changes along a history of snapshots ----

  function Lookup(nodes: seq<Node>, path: string): Option<Node> { Get(ByPath(nodes), path) }

  ghost predicate UniquePaths(nodes: seq<Node>) {
    forall i, j | 0 <= i < j < |nodes| :: nodes[i].path != nodes[j].path
  }

  lemma {:induction false} ByPathAt(nodes: seq<Node>, i: nat)
    requires UniquePaths(nodes) && i < |nodes|
    ensures Lookup(nodes, nodes[i].path) == Some(nodes[i])
  {
    var n := |nodes| - 1;
    if i < n {
      ByPathAt(nodes[..n], i);
      assert nodes[..n][i] == nodes[i];
    }
  }

  lemma {:induction false} ByPathFrom(nodes: seq<Node>, path: string)
    ensures Lookup(nodes, path).Some? ==> exists i | 0 <= i < |nodes| :: nodes[i] == Lookup(nodes, path).value && nodes[i].path == path
  {
    if nodes != [] {
      var n := |nodes| - 1;
      ByPathFrom(nodes[..n], path);
      if nodes[n].path != path && Lookup(nodes, path).Some? {
        var i :| 0 <= i < n && nodes[..n][i] == Lookup(nodes[..n], path).value && nodes[..n][i].path == path;
        assert nodes[i] == Lookup(nodes, path).value;
      }
    }
  }

  ghost predicate Reports(before: seq<Node>, after: seq<Node>, path: string, change: Change) {
    exists d :: d in DiffSchemas(before, after) && d.path == path && d.change == change
  }

  ghost predicate ReportsBreaking(before: seq<Node>, after: seq<Node>, path: string) {
    exists d :: d in DiffSchemas(before, after) && d.path == path && d.severity == Breaking
  }

  /** The item type of an array changed together with something that is reported instead. */
  predicate Masked(o: Option<Node>, n: Option<Node>) {
    && o.Some? && n.Some? && o.value.typ == "array" && n.value.typ == "array"
    && o.value.itemType != n.value.itemType
    && (o.value.nullable != n.value.nullable || EnumsDiffer(o.value, n.value))
  }

  predicate BreakingChange(c: Option<Change>) { c.Some? && Classify(c.value) == Breaking }

  lemma {:induction false} ReportsWhat(before: seq<Node>, after: seq<Node>, path: string)
    ensures ReportsBreaking(before, after, path) <==> BreakingChange(ChangeOf(Lookup(before, path), Lookup(after, path)))
    ensures forall change :: Reports(before, after, path, change) <==> ChangeOf(Lookup(before, path), Lookup(after, path)) == Some(change)
  {
    var o, n := Lookup(before, path), Lookup(after, path);
    var c := ChangeOf(o, n);
    forall d: Diff | d.path == path ensures d in DiffSchemas(before, after) <==> c.Some? && d == Item(path, c.value, o, n) {
      DiffReports(before, after, d);
    }
    if c.Some? { assert Item(path, c.value, o, n) in DiffSchemas(before, after); }
  }

  /** A type kept, or widened from integer to number. */
  predicate Widens(s: string, t: string) { s == t || (s == "integer" && t == "number") }

  /** Without a breaking report a path stays and its type is kept or widened; an array
      also keeps its item type unless a change of it was masked. */
  lemma {:induction false} QuietPair(before: seq<Node>, after: seq<Node>, path: string)
    requires !ReportsBreaking(before, after, path) && Lookup(before, path).Some?
    ensures var o, n := Lookup(before, path), Lookup(after, path);
      && n.Some? && Widens(o.value.typ, n.value.typ)
      && (o.value.typ == "array" && !Masked(o, n) ==> n.value.itemType == o.value.itemType)
  {
    ReportsWhat(before, after, path);
    QuietChange(Lookup(before, path), Lookup(after, path));
  }

  lemma {:induction false} QuietChange(o: Option<Node>, n: Option<Node>)
    requires o.Some? && !BreakingChange(ChangeOf(o, n))
    ensures n.Some? && Widens(o.value.typ, n.value.typ)
    ensures o.value.typ == "array" && !Masked(o, n) ==> n.value.itemType == o.value.itemType
  {
  }

  ghost predicate QuietAt(history: seq<seq<Node>>, k: nat, path: string)
    requires k + 1 < |history|
  {
    !ReportsBreaking(history[k], history[k + 1], path)
  }

  predicate MaskedAt(history: seq<seq<Node>>, k: nat, path: string)
    requires k + 1 < |history|
  {
    Masked(Lookup(history[k], path), Lookup(history[k + 1], path))
  }

  lemma {:induction false} QuietHistory(history: seq<seq<Node>>, n: nat, path: string)
    requires n < |history| && Lookup(history[0], path).Some?
    requires forall k | 0 <= k < n :: QuietAt(history, k, path)
    ensures var o, m := Lookup(history[0], path), Lookup(history[n], path);
      && m.Some? && Widens(o.value.typ, m.value.typ)
      && (o.value.typ == "array" && (forall k | 0 <= k < n :: !MaskedAt(history, k, path)) ==> m.value.itemType == o.value.itemType)
  {
    if n > 0 {
      QuietHistory(history, n - 1, path);
      assert QuietAt(history, n - 1, path);
      QuietPair(history[n - 1], history[n], path);
      if forall k | 0 <= k < n :: !MaskedAt(history, k, path) {
        assert !MaskedAt(history, n - 1, path);
      }
    }
  }

  /** No breaking change is lost through intermediate snapshots: whenever the first and
      the last of a history differ by a removal or a type change other than integer to
      number at a path, some consecutive pair reports a breaking change there. The one
      other breaking kind, a changed array item type, is so reported too unless some
      consecutive pair changes it together with nullability or enum values. */
  lemma {:induction false} NoBreakingChangeLost(history: seq<seq<Node>>, path: string)
    requires history != [] && ReportsBreaking(history[0], history[|history| - 1], path)
    ensures exists k | 0 <= k < |history| - 1 ::
      || !QuietAt(history, k, path)
      || (Reports(history[0], history[|history| - 1], path, ArrayItemTypeChanged) && MaskedAt(history, k, path))
  {
    var n := |history| - 1;
    var o, m := Lookup(history[0], path), Lookup(history[n], path);
    ReportsWhat(history[0], history[n], path);
    if forall k | 0 <= k < n :: QuietAt(history, k, path) {
      BreakingHasBefore(o, m);
      QuietHistory(history, n, path);
      BreakingIsItemType(o, m);
    }
  }

  lemma {:induction false} BreakingHasBefore(o: Option<Node>, n: Option<Node>)
    requires BreakingChange(ChangeOf(o, n))
    ensures o.Some?
  {
  }

  /** The only breaking change of a path that stays with its type kept or widened. */
  lemma {:induction false} BreakingIsItemType(o: Option<Node>, n: Option<Node>)
    requires BreakingChange(ChangeOf(o, n)) && o.Some? && n.Some? && Widens(o.value.typ, n.value.typ)
    ensures ChangeOf(o, n) == Some(ArrayItemTypeChanged) && o.value.typ == "array" && o.value.itemType != n.value.itemType
  {
  }

  /** A changed item type is reported exactly when nothing else changes with it. */
  lemma {:induction false} ItemTypeReportedIffUnmasked(before: seq<Node>, after: seq<Node>, path: string)
    requires var o, n := Lookup(before, path), Lookup(after, path);
      o.Some? && n.Some? && o.value.typ == "array" && n.value.typ == "array" && o.value.itemType != n.value.itemType
    ensures ReportsBreaking(before, after, path) <==> !Masked(Lookup(before, path), Lookup(after, path))
  {
    ReportsWhat(before, after, path);
    UnmaskedBreaks(Lookup(before, path).value, Lookup(after, path).value);
  }

  lemma {:induction false} UnmaskedBreaks(o: Node, n: Node)
    requires o.typ == "array" && n.typ == "array" && o.itemType != n.itemType
    ensures BreakingChange(PickChange(o, n)) <==> o.nullable == n.nullable && !EnumsDiffer(o, n)
  {
  }

  lemma {:induction false} LookupOnly(node: Node)
    ensures ByPath([node]) == map[node.path := node] && Lookup([node], node.path) == Some(node)
  {
    assert [node][..0] == [];
  }

  /** A path whose change kind is known is reported as breaking exactly by the table. */
  lemma {:induction false} PairBreaks(before: seq<Node>, after: seq<Node>, path: string, c: Change)
    requires ChangeOf(Lookup(before, path), Lookup(after, path)) == Some(c)
    ensures ReportsBreaking(before, after, path) <==> Classify(c) == Breaking
  {
    ReportsWhat(before, after, path);
  }
}
