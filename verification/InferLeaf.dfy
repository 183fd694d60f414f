/** The accumulator of a path at which only scalars are observed: what it holds after
    any sequence of them is a function of the set of values, whatever their order. */
module InferLeaf {
  import opened Texts
  import opened SchemaInfer
  import J = Json

  function Observations(vs: seq<J.Json>): seq<Update> {
    if vs == [] then [] else [Observe(vs[0])] + Observations(vs[1..])
  }

  lemma {:induction false} ObservationsGrow(vs: seq<J.Json>, v: J.Json)
    ensures Observations(vs + [v]) == Observations(vs) + [Observe(v)]
  {
    if vs == [] {
      assert ([] + [v])[1..] == [] && [] + [v] == [v];
    } else {
      assert (vs + [v])[1..] == vs[1..] + [v];
      ObservationsGrow(vs[1..], v);
    }
  }

  lemma {:induction false} FoldedGrows(st: Option<NodeState>, us: seq<Update>, u: Update)
    ensures Folded(st, us + [u]) == Applied(Folded(st, us), u)
    decreases |us|
  {
    if us == [] {
      assert ([] + [u])[1..] == [] && [] + [u] == [u];
      assert Folded(Applied(st, u), []) == Applied(st, u);
    } else {
      assert (us + [u])[1..] == us[1..] + [u];
      FoldedGrows(Applied(st, us[0]), us[1..], u);
    }
  }

  /** The accumulator after a sequence of values observed at its path. */
  function Streamed(vs: seq<J.Json>): Option<NodeState> { Folded(None, Observations(vs)) }

  lemma {:induction false} StreamGrows(vs: seq<J.Json>, v: J.Json)
    ensures Streamed(vs + [v]) == Some(Observed(Streamed(vs), v))
  {
    ObservationsGrow(vs, v);
    FoldedGrows(None, Observations(vs), Observe(v));
  }

  // ---- The batch specification ----

  function ValueTypes(vs: seq<J.Json>): set<string> {
    set i | 0 <= i < |vs| && !vs[i].Null? :: ScalarType(vs[i])
  }

  function Strings(vs: seq<J.Json>): set<string> {
    set i | 0 <= i < |vs| && vs[i].Str? :: vs[i].s
  }

  predicate HasNull(vs: seq<J.Json>) { exists i | 0 <= i < |vs| :: vs[i].Null? }

  /** The join of the observed types: null below everything, two different types mixed. */
  function TypeJoin(types: set<string>): string {
    if types == {} then "null" else if |types| == 1 then OnlyMember(types) else "mixed"
  }

  ghost predicate TypesHeld(types: set<string>, nulls: bool, st: NodeState) {
    st.typ == TypeJoin(types) && (st.nullable <==> nulls) && st.required && st.itemType.None?
  }

  ghost predicate StringsHeld(strings: set<string>, st: NodeState) {
    && (st.stringLeaf <==> strings != {})
    && (st.enumDisabled <==> |strings| > ENUM_THRESHOLD)
    && st.enums == (if st.enumDisabled then {} else strings)
  }

  /** What the accumulator must hold. */
  ghost predicate Batch(vs: seq<J.Json>, st: NodeState) {
    TypesHeld(ValueTypes(vs), HasNull(vs), st) && StringsHeld(Strings(vs), st)
  }

  lemma {:induction false} ValueTypesGrow(vs: seq<J.Json>, v: J.Json)
    ensures ValueTypes(vs + [v]) == ValueTypes(vs) + (if v.Null? then {} else {ScalarType(v)})
  {
    var w := vs + [v];
    forall t ensures t in ValueTypes(w) <==> t in ValueTypes(vs) + (if v.Null? then {} else {ScalarType(v)}) {
      if t in ValueTypes(vs) {
        var i :| 0 <= i < |vs| && !vs[i].Null? && ScalarType(vs[i]) == t;
        assert w[i] == vs[i];
      }
      assert w[|vs|] == v;
    }
  }

  lemma {:induction false} StringsGrow(vs: seq<J.Json>, v: J.Json)
    ensures Strings(vs + [v]) == Strings(vs) + (if v.Str? then {v.s} else {})
  {
    var w := vs + [v];
    forall t ensures t in Strings(w) <==> t in Strings(vs) + (if v.Str? then {v.s} else {}) {
      if t in Strings(vs) {
        var i :| 0 <= i < |vs| && vs[i].Str? && vs[i].s == t;
        assert w[i] == vs[i];
      }
      assert w[|vs|] == v;
    }
  }

  lemma {:induction false} HasNullGrows(vs: seq<J.Json>, v: J.Json)
    ensures HasNull(vs + [v]) <==> HasNull(vs) || v.Null?
  {
    var w := vs + [v];
    if HasNull(vs) {
      var i :| 0 <= i < |vs| && vs[i].Null?;
      assert w[i] == vs[i];
    }
    assert w[|vs|] == v;
  }

  lemma {:induction false} SingletonMember(s: set<string>, x: string)
    requires |s| == 1 && x in s
    ensures s == {x} && OnlyMember(s) == x
  {
    assert s - {x} == {} by { assert |s - {x}| == 0; }
    assert s == {x};
  }

  lemma {:induction false} BoundedSet(s: set<string>, x: string)
    ensures |s + {x}| >= |s| && (x !in s ==> |s + {x}| == |s| + 1) && (x in s ==> s + {x} == s)
  {
  }

  /** Joining one more type. */
  lemma {:induction false} JoinGrows(types: set<string>, t: string)
    requires t != "mixed" && t != "null" && "mixed" !in types && "null" !in types
    ensures TypeJoin(types + {t}) ==
      if TypeJoin(types) == "null" then t else if TypeJoin(types) != t then "mixed" else t
  {
    BoundedSet(types, t);
    if types == {} {
      SingletonMember({t}, t);
      assert types + {t} == {t};
    } else if |types| == 1 {
      var only := OnlyMember(types);
      SingletonMember(types, only);
    } else if t in types {
      assert types + {t} == types;
    }
  }

  /** The item type of a mixed list: null when all items are null, the one type of the
      others when they share it, and mixed exactly when two of them differ. */
  lemma {:induction false} ArrayItemTypeMeans(items: seq<J.Json>)
    ensures ArrayItemType(items) == "null" <==> forall i | 0 <= i < |items| :: items[i].Null?
    ensures ArrayItemType(items) == "mixed" <==>
      exists i, j | 0 <= i < |items| && 0 <= j < |items| :: !items[i].Null? && !items[j].Null? && ScalarType(items[i]) != ScalarType(items[j])
    ensures ArrayItemType(items) !in {"null", "mixed"} ==>
      forall i | 0 <= i < |items| && !items[i].Null? :: ScalarType(items[i]) == ArrayItemType(items)
  {
    var types := ItemTypes(items);
    forall i | 0 <= i < |items| && !items[i].Null? ensures ScalarType(items[i]) in types {}
    if |types| == 1 {
      SingletonMember(types, OnlyMember(types));
    } else if types != {} {
      var a :| a in types;
      assert |types - {a}| == |types| - 1;
      var b :| b in types - {a};
    }
  }

  ghost predicate Scalars(vs: seq<J.Json>) { forall i | 0 <= i < |vs| :: J.IsScalar(vs[i]) }

  lemma {:induction false} TypesAreScalar(vs: seq<J.Json>)
    requires Scalars(vs)
    ensures "mixed" !in ValueTypes(vs) && "null" !in ValueTypes(vs)
  {
  }

  /** One observation keeps the accumulator's type the join of the types so far. */
  lemma {:induction false} ObservedTypes(types: set<string>, nulls: bool, st: NodeState, v: J.Json)
    requires TypesHeld(types, nulls, st) && "mixed" !in types && "null" !in types && (types == {} ==> nulls)
    requires J.IsScalar(v)
    ensures TypesHeld(types + (if v.Null? then {} else {ScalarType(v)}), nulls || v.Null?, Observed(Some(st), v))
  {
    if v.Null? {
      assert types + {} == types;
    } else {
      var t := ScalarType(v);
      JoinGrows(types, t);
      assert TypeJoin(types) == "null" ==> types == {};
      WithTypeHeld(types, nulls, st, t);
      assert TypesHeld(types + {t}, nulls, WithExample(WithType(st, t), v));
    }
  }

  lemma {:induction false} WithTypeHeld(types: set<string>, nulls: bool, st: NodeState, t: string)
    requires TypesHeld(types, nulls, st) && (st.typ == "null" ==> nulls)
    requires TypeJoin(types + {t}) == if TypeJoin(types) == "null" then t else if TypeJoin(types) != t then "mixed" else t
    ensures TypesHeld(types + {t}, nulls, WithType(st, t))
  {
  }

  lemma {:induction false} WithStringHeld(strings: set<string>, st: NodeState, s: string)
    requires StringsHeld(strings, st)
    ensures StringsHeld(strings + {s}, WithString(st, s))
  {
    BoundedSet(strings, s);
  }

  predicate SameStrings(a: NodeState, b: NodeState) {
    a.stringLeaf == b.stringLeaf && a.enumDisabled == b.enumDisabled && a.enums == b.enums
  }

  lemma {:induction false} TypeAndExampleKeepStrings(st: NodeState, t: string, v: J.Json)
    ensures SameStrings(st, WithExample(WithType(st, t), v)) && SameStrings(st, st.(nullable := true))
  {
  }

  lemma {:induction false} ObservedStrings(strings: set<string>, st: NodeState, v: J.Json)
    requires J.IsScalar(v) && StringsHeld(strings, st)
    ensures StringsHeld(strings + (if v.Str? then {v.s} else {}), Observed(Some(st), v))
  {
    var typed := WithExample(WithType(st, ScalarType(v)), v);
    TypeAndExampleKeepStrings(st, ScalarType(v), v);
    assert StringsHeld(strings, typed);
    if v.Str? {
      WithStringHeld(strings, typed, v.s);
    } else {
      assert strings + {} == strings;
    }
  }

  lemma {:induction false} TypeListed(vs: seq<J.Json>, i: nat)
    requires i < |vs| && !vs[i].Null?
    ensures ValueTypes(vs) != {}
  {
    assert ScalarType(vs[i]) in ValueTypes(vs);
  }

  /** Without a value there was a null. */
  lemma {:induction false} NoTypesHasNull(vs: seq<J.Json>)
    requires vs != [] && ValueTypes(vs) == {}
    ensures HasNull(vs)
  {
    if !vs[0].Null? { TypeListed(vs, 0); }
  }

  lemma {:induction false} FirstObserved(v: J.Json)
    requires J.IsScalar(v)
    ensures Batch([v], Observed(None, v))
  {
    ValueTypesGrow([], v);
    StringsGrow([], v);
    HasNullGrows([], v);
    assert [] + [v] == [v] && ValueTypes([]) == {} && Strings([]) == {};
    if !v.Null? {
      assert ValueTypes([v]) == {ScalarType(v)};
      SingletonMember({ScalarType(v)}, ScalarType(v));
    }
    if v.Str? { assert {} + {v.s} == {v.s} && |{v.s}| == 1; }
  }

  lemma {:induction false} ObservedLast(vs: seq<J.Json>, st: NodeState, v: J.Json)
    requires Scalars(vs) && vs != [] && J.IsScalar(v) && Batch(vs, st)
    ensures Batch(vs + [v], Observed(Some(st), v))
  {
    ValueTypesGrow(vs, v);
    StringsGrow(vs, v);
    HasNullGrows(vs, v);
    TypesAreScalar(vs);
    if ValueTypes(vs) == {} { NoTypesHasNull(vs); }
    ObservedTypes(ValueTypes(vs), HasNull(vs), st, v);
    ObservedStrings(Strings(vs), st, v);
  }

  /** Streaming equals the batch, for every nonempty sequence of scalars. */
  lemma {:induction false} StreamingIsBatch(vs: seq<J.Json>)
    requires Scalars(vs) && vs != []
    ensures Streamed(vs).Some? && Batch(vs, Streamed(vs).value)
  {
    var n := |vs| - 1;
    assert vs == vs[..n] + [vs[n]];
    StreamGrows(vs[..n], vs[n]);
    if n == 0 {
      FirstObserved(vs[0]);
      assert vs[..n] == [] && vs == [vs[0]];
    } else {
      StreamingIsBatch(vs[..n]);
      ObservedLast(vs[..n], Streamed(vs[..n]).value, vs[n]);
    }
  }

  /** The finished leaf: its type is the join, it is nullable exactly when a null was
      seen, and it lists its strings, sorted, exactly when there are 1 to 10 of them. */
  lemma {:induction false} FinishedLeaf(path: string, vs: seq<J.Json>)
    requires Scalars(vs) && vs != []
    ensures Streamed(vs).Some?
    ensures var node, strings := Finalize(path, Streamed(vs).value), Strings(vs);
      && node.typ == TypeJoin(ValueTypes(vs)) && (node.nullable <==> HasNull(vs))
      && node.enums == if 1 <= |strings| <= 10 then Some(SortedSet(strings)) else None
  {
    StreamingIsBatch(vs);
    assert |Strings(vs)| == 0 <==> Strings(vs) == {};
  }

  ghost predicate SameValues(vs: seq<J.Json>, ws: seq<J.Json>) {
    (forall v | v in vs :: v in ws) && (forall w | w in ws :: w in vs)
  }

  lemma {:induction false} SameSets(vs: seq<J.Json>, ws: seq<J.Json>)
    requires SameValues(vs, ws)
    ensures ValueTypes(vs) <= ValueTypes(ws) && Strings(vs) <= Strings(ws) && (HasNull(vs) ==> HasNull(ws))
  {
    forall t | t in ValueTypes(vs) ensures t in ValueTypes(ws) {
      var i :| 0 <= i < |vs| && !vs[i].Null? && ScalarType(vs[i]) == t;
      assert vs[i] in ws;
    }
    forall t | t in Strings(vs) ensures t in Strings(ws) {
      var i :| 0 <= i < |vs| && vs[i].Str? && vs[i].s == t;
      assert vs[i] in ws;
    }
    if HasNull(vs) {
      var i :| 0 <= i < |vs| && vs[i].Null?;
      assert vs[i] in ws;
    }
  }

  /** Order and repetition of the values matter for nothing but the example kept. */
  lemma {:induction false} LeafIgnoresOrder(path: string, vs: seq<J.Json>, ws: seq<J.Json>)
    requires Scalars(vs) && Scalars(ws) && vs != [] && ws != [] && SameValues(vs, ws)
    ensures Streamed(vs).Some? && Streamed(ws).Some?
    ensures Finalize(path, Streamed(vs).value).(example := None) == Finalize(path, Streamed(ws).value).(example := None)
  {
    SameSets(vs, ws);
    SameSets(ws, vs);
    StreamingIsBatch(vs);
    StreamingIsBatch(ws);
    assert ValueTypes(vs) == ValueTypes(ws) && Strings(vs) == Strings(ws);
  }

  // ---- In a document ----

  /** The updates of a leaf: scalars observed, and notes that some object lacks the key. */
  ghost predicate LeafUpdates(us: seq<Update>) {
    forall i | 0 <= i < |us| :: us[i].Optional? || (us[i].Observe? && J.IsScalar(us[i].value))
  }

  function ValuesOf(us: seq<Update>): seq<J.Json> {
    if us == [] then []
    else
      var n := |us| - 1;
      if us[n].Observe? then ValuesOf(us[..n]) + [us[n].value] else ValuesOf(us[..n])
  }

  /** A key is noted as lacking after a value of it was observed. */
  ghost predicate MadeOptional(us: seq<Update>) {
    exists i, j | 0 <= i < j < |us| :: us[i].Observe? && us[j].Optional?
  }

  lemma {:induction false} ValuesAreScalars(us: seq<Update>)
    requires LeafUpdates(us)
    ensures Scalars(ValuesOf(us)) && (ValuesOf(us) != [] <==> exists i | 0 <= i < |us| :: us[i].Observe?)
  {
    if us != [] {
      var n := |us| - 1;
      ValuesAreScalars(us[..n]);
      if ValuesOf(us[..n]) != [] {
        var i :| 0 <= i < n && us[..n][i].Observe?;
        assert us[i].Observe?;
      } else if !us[n].Observe? {
        forall i | 0 <= i < |us| ensures !us[i].Observe? { assert i < n ==> us[..n][i] == us[i]; }
      }
    }
  }

  lemma {:induction false} MadeOptionalGrows(us: seq<Update>, u: Update)
    ensures MadeOptional(us + [u]) <==> MadeOptional(us) || (u.Optional? && exists i | 0 <= i < |us| :: us[i].Observe?)
  {
    var w := us + [u];
    if MadeOptional(us) {
      var i, j :| 0 <= i < j < |us| && us[i].Observe? && us[j].Optional?;
      assert w[i] == us[i] && w[j] == us[j];
    }
    if u.Optional? && exists i | 0 <= i < |us| :: us[i].Observe? {
      var i :| 0 <= i < |us| && us[i].Observe?;
      assert w[i] == us[i] && w[|us|] == u;
    }
  }

  lemma {:induction false} WithTypeKeepsRequired(st: NodeState, t: string, required: bool)
    ensures WithType(st.(required := required), t) == WithType(st, t).(required := required)
  {
  }

  lemma {:induction false} WithStringKeepsRequired(st: NodeState, s: string, required: bool)
    ensures WithString(st.(required := required), s) == WithString(st, s).(required := required)
  {
  }

  /** Being required is no part of what an observation reads. */
  lemma {:induction false} ObservedKeepsRequired(st: NodeState, v: J.Json, required: bool)
    ensures Observed(Some(st.(required := required)), v) == Observed(Some(st), v).(required := required)
  {
    WithTypeKeepsRequired(st, ScalarType(v), required);
    assert WithExample(WithType(st, ScalarType(v)).(required := required), v) == WithExample(WithType(st, ScalarType(v)), v).(required := required);
    if v.Str? { WithStringKeepsRequired(WithExample(WithType(st, ScalarType(v)), v), v.s, required); }
  }

  /** What the values alone leave, except that the key may no longer be required. */
  lemma {:induction false} LeafFolded(us: seq<Update>)
    requires LeafUpdates(us)
    ensures ValuesOf(us) == [] ==> Folded(None, us).None?
    ensures ValuesOf(us) != [] ==> Streamed(ValuesOf(us)).Some?
    ensures ValuesOf(us) != [] ==> Folded(None, us) == Some(Streamed(ValuesOf(us)).value.(required := !MadeOptional(us)))
  {
    if us != [] {
      var n := |us| - 1;
      var before, vs := us[..n], ValuesOf(us[..n]);
      assert us == before + [us[n]];
      LeafFolded(before);
      ValuesAreScalars(before);
      FoldedGrows(None, before, us[n]);
      MadeOptionalGrows(before, us[n]);
      if vs != [] { StreamingIsBatch(vs); }
      if us[n].Observe? {
        StreamGrows(vs, us[n].value);
        if vs != [] {
          ObservedKeepsRequired(Streamed(vs).value, us[n].value, !MadeOptional(before));
        } else {
          assert Streamed([]) == None;
        }
      }
    }
  }

  lemma {:induction false} NodeOfState(ops: seq<Op>, path: string, st: NodeState)
    requires Folded(None, At(ops, path)) == Some(st)
    ensures Finalize(path, st) in Nodes(ops)
  {
    TouchedHas(ops, path);
    var i :| 0 <= i < |SortedSet(Touched(ops))| && SortedSet(Touched(ops))[i] == path;
    NodesAt(ops, i);
    assert Nodes(ops)[i] == Finalize(path, st);
  }

  /** In a document's schema a path that only observes scalars is such a leaf, required
      unless a key is noted as lacking after a value of it. */
  lemma {:induction false} LeafOfTrace(v: J.Json, path: string, us: seq<Update>)
    requires us == At(Walk(v, ""), path) && LeafUpdates(us) && ValuesOf(us) != []
    ensures Scalars(ValuesOf(us)) && Streamed(ValuesOf(us)).Some?
    ensures Finalize(path, Streamed(ValuesOf(us)).value).(required := !MadeOptional(us)) in Infer(v)
  {
    ValuesAreScalars(us);
    LeafFolded(us);
    NodeOfState(Walk(v, ""), path, Streamed(ValuesOf(us)).value.(required := !MadeOptional(us)));
  }
}
