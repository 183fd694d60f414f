/** The hash shortcut of a monitor run: the diff is skipped when the schema hashes are
    equal, and equal structural projections leave nothing for the diff to report. */
module SchemaHash {
  import opened Texts
  import opened SchemaInfer
  import opened SchemaDiff
  import J = Json

  /** What the hash covers of a node: everything but its example. */
  datatype Projection = Projection(
    path: string, typ: string, required: bool, nullable: bool, itemType: Option<string>, enums: Option<seq<string>>)

  function Project(n: Node): Projection {
    Projection(n.path, n.typ, n.required, n.nullable, n.itemType, n.enums)
  }

  function PathOf(p: Projection): string { p.path }

  function ProjectAll(nodes: seq<Node>): (ps: seq<Projection>)
    ensures |ps| == |nodes| && forall i | 0 <= i < |nodes| :: ps[i] == Project(nodes[i])
  {
    seq(|nodes|, i requires 0 <= i < |nodes| => Project(nodes[i]))
  }

  /** What is serialised and hashed. */
  function HashInput(nodes: seq<Node>): seq<Projection> { SortBy(ProjectAll(nodes), PathOf) }

  /** The hash of a schema, for a digest of its serialisation. */
  function StableHash(digest: seq<Projection> -> string, nodes: seq<Node>): string { digest(HashInput(nodes)) }

  /** Lists with the same hash input have, at each path, nodes that differ in their examples only. */
  lemma {:induction false} SameInputSameNode(a: seq<Node>, b: seq<Node>, path: string)
    requires UniquePaths(b) && HashInput(a) == HashInput(b) && Lookup(a, path).Some?
    ensures Lookup(b, path).Some? && Project(Lookup(b, path).value) == Project(Lookup(a, path).value)
  {
    ByPathFrom(a, path);
    var i :| 0 <= i < |a| && a[i] == Lookup(a, path).value && a[i].path == path;
    var p := ProjectAll(a)[i];
    SameMultisetSameMembers(ProjectAll(a), ProjectAll(b), p);
    assert p in ProjectAll(b);
    var j :| 0 <= j < |b| && ProjectAll(b)[j] == p;
    ByPathAt(b, j);
  }

  lemma {:induction false} SameProjectionNoChange(o: Node, n: Node)
    requires Project(o) == Project(n)
    ensures PickChange(o, n).None?
  {
  }

  lemma {:induction false} ReportedHasChange(before: seq<Node>, after: seq<Node>, d: Diff)
    requires d in DiffSchemas(before, after)
    ensures ChangeOf(Lookup(before, d.path), Lookup(after, d.path)).Some?
  {
    DiffReports(before, after, d);
  }

  lemma {:induction false} EmptyWhenNoChange(before: seq<Node>, after: seq<Node>)
    requires forall path :: ChangeOf(Lookup(before, path), Lookup(after, path)).None?
    ensures DiffSchemas(before, after) == []
  {
    if DiffSchemas(before, after) != [] {
      ReportedHasChange(before, after, DiffSchemas(before, after)[0]);
    }
  }

  /** For node lists with unique paths, in any order: equal hash inputs leave an empty
      diff in both directions. */
  lemma {:induction false} EqualProjectionsEmptyDiff(before: seq<Node>, after: seq<Node>)
    requires UniquePaths(before) && UniquePaths(after) && HashInput(before) == HashInput(after)
    ensures DiffSchemas(before, after) == []
  {
    forall path ensures ChangeOf(Lookup(before, path), Lookup(after, path)).None? {
      if Lookup(before, path).Some? {
        SameInputSameNode(before, after, path);
        SameProjectionNoChange(Lookup(before, path).value, Lookup(after, path).value);
      } else if Lookup(after, path).Some? {
        SameInputSameNode(after, before, path);
      }
    }
    EmptyWhenNoChange(before, after);
  }

  /** Skipping the diff of two inferred schemas on equal hashes loses nothing, if the
      digest tells their hash inputs apart. */
  lemma {:induction false} SkippingLosesNothing(digest: seq<Projection> -> string, v: J.Json, w: J.Json)
    requires forall x, y :: digest(x) == digest(y) ==> x == y
    requires StableHash(digest, Infer(v)) == StableHash(digest, Infer(w))
    ensures DiffSchemas(Infer(v), Infer(w)) == []
  {
    InferIsSorted(v);
    InferIsSorted(w);
    EqualProjectionsEmptyDiff(Infer(v), Infer(w));
  }

  /** The hash does not depend on the order of the nodes. */
  lemma {:induction false} HashIgnoresOrder(a: seq<Node>, b: seq<Node>)
    requires UniquePaths(a) && UniquePaths(b) && multiset(ProjectAll(a)) == multiset(ProjectAll(b))
    ensures HashInput(a) == HashInput(b)
  {
    forall x, y | x in HashInput(a) && y in HashInput(a) && PathOf(x) == PathOf(y) ensures x == y {
      SameMultisetSameMembers(HashInput(a), ProjectAll(a), x);
      SameMultisetSameMembers(HashInput(a), ProjectAll(a), y);
      var i :| 0 <= i < |a| && ProjectAll(a)[i] == x;
      var j :| 0 <= j < |a| && ProjectAll(a)[j] == y;
      assert i == j;
    }
    SortedUnique(HashInput(a), HashInput(b), PathOf);
  }

  /** The converse fails: a field that becomes optional changes the hash input and is no change to the diff. */
  lemma {:induction false} OptionalChangesHashOnly(n: Node)
    requires n.required
    ensures HashInput([n]) != HashInput([n.(required := false)]) && DiffSchemas([n], [n.(required := false)]) == []
  {
    var m := n.(required := false);
    LookupOnly(n);
    LookupOnly(m);
    HashInputOne(n);
    HashInputOne(m);
    forall path ensures ChangeOf(Lookup([n], path), Lookup([m], path)).None? {}
    EmptyWhenNoChange([n], [m]);
  }

  lemma {:induction false} HashInputOne(n: Node)
    ensures HashInput([n]) == [Project(n)]
  {
    assert ProjectAll([n]) == [Project(n)];
    SortOfSorted([Project(n)], PathOf);
  }

  // ---- Exactly what the hash sees ----

  /** The two nodes agree in what is hashed and not compared by the diff: whether the field
      is required, whether values are listed and in which order, and the item type of
      what is not an array. */
  predicate AgreeUnseen(o: Node, n: Node) {
    && o.required == n.required && o.enums.Some? == n.enums.Some?
    && (o.enums.Some? && n.enums.Some? && SetOf(o.enums.value) == SetOf(n.enums.value) ==> o.enums == n.enums)
    && (o.typ != "array" ==> o.itemType == n.itemType)
  }

  lemma {:induction false} ProjectionParts(o: Node, n: Node)
    requires o.path == n.path
    ensures Project(o) == Project(n) <==> PickChange(o, n).None? && AgreeUnseen(o, n)
  {
    ChangesMean(o, n);
  }

  lemma {:induction false} EmptyDiffNoChange(before: seq<Node>, after: seq<Node>, path: string)
    requires DiffSchemas(before, after) == []
    ensures ChangeOf(Lookup(before, path), Lookup(after, path)).None?
  {
    var o, n := Lookup(before, path), Lookup(after, path);
    if ChangeOf(o, n).Some? {
      var d := Item(path, ChangeOf(o, n).value, o, n);
      DiffReports(before, after, d);
      assert d !in DiffSchemas(before, after);
    }
  }

  ghost predicate AgreeUnseenAt(a: seq<Node>, b: seq<Node>, path: string) {
    Lookup(a, path).Some? && Lookup(b, path).Some? ==> AgreeUnseen(Lookup(a, path).value, Lookup(b, path).value)
  }

  lemma {:induction false} NodesProjectAlike(a: seq<Node>, b: seq<Node>, p: Projection)
    requires UniquePaths(a) && DiffSchemas(a, b) == [] && AgreeUnseenAt(a, b, p.path)
    requires p in ProjectAll(a)
    ensures p in ProjectAll(b)
  {
    var i :| 0 <= i < |a| && ProjectAll(a)[i] == p;
    ByPathAt(a, i);
    EmptyDiffNoChange(a, b, p.path);
    ByPathFrom(b, p.path);
    var j :| 0 <= j < |b| && b[j] == Lookup(b, p.path).value && b[j].path == p.path;
    ProjectionParts(a[i], b[j]);
    assert ProjectAll(b)[j] == p;
  }

  lemma {:induction false} EmptyDiffBackwards(a: seq<Node>, b: seq<Node>)
    requires DiffSchemas(a, b) == []
    ensures DiffSchemas(b, a) == []
  {
    forall path ensures ChangeOf(Lookup(b, path), Lookup(a, path)).None? {
      EmptyDiffNoChange(a, b, path);
      if Lookup(a, path).Some? { ChangesUndo(Lookup(a, path).value, Lookup(b, path).value); }
    }
    EmptyWhenNoChange(b, a);
  }

  lemma {:induction false} HashInputApart(nodes: seq<Node>)
    requires UniquePaths(nodes)
    ensures KeysApart(HashInput(nodes), PathOf)
  {
    PermutationKeepsKeysApart(ProjectAll(nodes), HashInput(nodes), PathOf);
  }

  /** Lists with unique paths hash alike exactly when the diff is empty and at every common
      path the nodes agree in what the diff does not look at. */
  lemma {:induction false} HashSeesDiffAndUnseen(a: seq<Node>, b: seq<Node>)
    requires UniquePaths(a) && UniquePaths(b)
    ensures HashInput(a) == HashInput(b) <==> DiffSchemas(a, b) == [] && forall path :: AgreeUnseenAt(a, b, path)
  {
    if HashInput(a) == HashInput(b) {
      EqualProjectionsEmptyDiff(a, b);
      forall path ensures AgreeUnseenAt(a, b, path) {
        if Lookup(a, path).Some? && Lookup(b, path).Some? {
          SameInputSameNode(a, b, path);
          ProjectionParts(Lookup(a, path).value, Lookup(b, path).value);
        }
      }
    }
    if DiffSchemas(a, b) == [] && forall path :: AgreeUnseenAt(a, b, path) {
      UnseenAgreeHashes(a, b);
    }
  }

  lemma {:induction false} ProjectionsIncluded(a: seq<Node>, b: seq<Node>)
    requires UniquePaths(a) && DiffSchemas(a, b) == [] && forall path :: AgreeUnseenAt(a, b, path)
    ensures forall p | p in ProjectAll(a) :: p in ProjectAll(b)
  {
    forall p | p in ProjectAll(a) ensures p in ProjectAll(b) {
      NodesProjectAlike(a, b, p);
    }
  }

  lemma {:induction false} SameProjectionsSameInput(a: seq<Node>, b: seq<Node>)
    requires UniquePaths(a) && UniquePaths(b)
    requires (forall p | p in ProjectAll(a) :: p in ProjectAll(b)) && (forall p | p in ProjectAll(b) :: p in ProjectAll(a))
    ensures HashInput(a) == HashInput(b)
  {
    HashInputApart(a);
    HashInputApart(b);
    forall p ensures p in HashInput(a) <==> p in HashInput(b) {
      SameMultisetSameMembers(HashInput(a), ProjectAll(a), p);
      SameMultisetSameMembers(HashInput(b), ProjectAll(b), p);
    }
    SortedApartUnique(HashInput(a), HashInput(b), PathOf);
  }

  lemma {:induction false} UnseenBackwards(a: seq<Node>, b: seq<Node>, path: string)
    requires DiffSchemas(a, b) == [] && AgreeUnseenAt(a, b, path)
    ensures AgreeUnseenAt(b, a, path)
  {
    EmptyDiffNoChange(a, b, path);
    if Lookup(a, path).Some? && Lookup(b, path).Some? { ChangesMean(Lookup(a, path).value, Lookup(b, path).value); }
  }

  lemma {:induction false} UnseenAgreeHashes(a: seq<Node>, b: seq<Node>)
    requires UniquePaths(a) && UniquePaths(b)
    requires DiffSchemas(a, b) == [] && forall path :: AgreeUnseenAt(a, b, path)
    ensures HashInput(a) == HashInput(b)
  {
    EmptyDiffBackwards(a, b);
    forall path ensures AgreeUnseenAt(b, a, path) { UnseenBackwards(a, b, path); }
    ProjectionsIncluded(a, b);
    ProjectionsIncluded(b, a);
    SameProjectionsSameInput(a, b);
  }

  ghost predicate EnumsSorted(nodes: seq<Node>) {
    forall i | 0 <= i < |nodes| && nodes[i].enums.Some? :: StrictlySorted(nodes[i].enums.value)
  }

  lemma {:induction false} InferredEnumsSorted(v: J.Json)
    ensures EnumsSorted(Infer(v))
  {
    var ops := Walk(v, "");
    forall i | 0 <= i < |Infer(v)| && Infer(v)[i].enums.Some? ensures StrictlySorted(Infer(v)[i].enums.value) {
      NodesAt(ops, i);
    }
  }

  /** What remains of it for sorted lists of values. */
  ghost predicate AgreeFlags(a: seq<Node>, b: seq<Node>, path: string) {
    Lookup(a, path).Some? && Lookup(b, path).Some? ==>
      var o, n := Lookup(a, path).value, Lookup(b, path).value;
      && o.required == n.required && o.enums.Some? == n.enums.Some?
      && (o.typ != "array" ==> o.itemType == n.itemType)
  }

  lemma {:induction false} SortedEnumsAgree(a: seq<Node>, b: seq<Node>, path: string)
    requires EnumsSorted(a) && EnumsSorted(b)
    ensures AgreeUnseenAt(a, b, path) <==> AgreeFlags(a, b, path)
  {
    var o, n := Lookup(a, path), Lookup(b, path);
    ByPathFrom(a, path);
    ByPathFrom(b, path);
    if o.Some? && n.Some? && o.value.enums.Some? && n.value.enums.Some? {
      var x, y := o.value.enums.value, n.value.enums.value;
      if SetOf(x) == SetOf(y) {
        forall s ensures s in x <==> s in y { assert s in SetOf(x) <==> s in SetOf(y); }
        StrictlySortedUnique(x, y);
      }
    }
  }

  lemma {:induction false} SortedHashSees(a: seq<Node>, b: seq<Node>)
    requires UniquePaths(a) && UniquePaths(b) && EnumsSorted(a) && EnumsSorted(b)
    ensures HashInput(a) == HashInput(b) <==> DiffSchemas(a, b) == [] && forall path :: AgreeFlags(a, b, path)
  {
    HashSeesDiffAndUnseen(a, b);
    forall path ensures AgreeUnseenAt(a, b, path) <==> AgreeFlags(a, b, path) { SortedEnumsAgree(a, b, path); }
  }

  /** So the hashes of two inferred schemas see, beyond what the diff reports, exactly
      whether a field is required, whether its values are listed, and the item type left
      on what is not an array. */
  lemma {:induction false} InferredHashSees(v: J.Json, w: J.Json)
    ensures HashInput(Infer(v)) == HashInput(Infer(w)) <==>
      (DiffSchemas(Infer(v), Infer(w)) == [] && forall path :: AgreeFlags(Infer(v), Infer(w), path))
  {
    InferIsSorted(v);
    InferIsSorted(w);
    InferredEnumsSorted(v);
    InferredEnumsSorted(w);
    SortedHashSees(Infer(v), Infer(w));
  }
}
