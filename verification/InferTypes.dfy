/** What inferred nodes say of the values in the document: types by the kinds of value
    observed, and the node of every value that objects lead to. */
module InferTypes {
  import opened Texts
  import opened Paths
  import opened SchemaInfer
  import opened InferOrder
  import opened InferLeaf
  import J = Json

  // ---- Types by kinds of value ----

  /** One of the values is of the kind, and all others of it or null. */
  ghost predicate AllOf(vs: seq<J.Json>, kind: J.Json -> bool) {
    (exists i | 0 <= i < |vs| :: kind(vs[i])) && forall i | 0 <= i < |vs| :: kind(vs[i]) || vs[i].Null?
  }

  /** Boolean, integer, float, string, or anything that is none of these and not null. */
  predicate SameKind(x: J.Json, y: J.Json) {
    if x.Null? then y.Null? else if x.Bool? then y.Bool? else if x.Int? then y.Int?
    else if x.Float? then y.Float? else if x.Str? then y.Str? else y.List? || y.Object?
  }

  ghost predicate TwoKinds(vs: seq<J.Json>) {
    exists i, j | 0 <= i < |vs| && 0 <= j < |vs| :: !vs[i].Null? && !vs[j].Null? && !SameKind(vs[i], vs[j])
  }

  /** A type says of which kinds the values are. */
  ghost predicate TypeMeans(t: string, vs: seq<J.Json>) {
    && (t == "null" <==> forall i | 0 <= i < |vs| :: vs[i].Null?)
    && (t == "boolean" <==> AllOf(vs, (v: J.Json) => v.Bool?))
    && (t == "integer" <==> AllOf(vs, (v: J.Json) => v.Int?))
    && (t == "number" <==> AllOf(vs, (v: J.Json) => v.Float?))
    && (t == "string" <==> AllOf(vs, (v: J.Json) => v.Str?))
    && (t == "unknown" <==> AllOf(vs, (v: J.Json) => v.List? || v.Object?))
    && (t == "mixed" <==> TwoKinds(vs))
  }

  const NAMES: seq<string> := ["boolean", "integer", "number", "string", "unknown"]

  lemma {:induction false} NamesApart()
    ensures forall i, j | 0 <= i < j < |NAMES| :: NAMES[i] != NAMES[j]
    ensures forall i | 0 <= i < |NAMES| :: NAMES[i] != "null" && NAMES[i] != "mixed"
  {
    assert |"boolean"| == 7 && |"integer"| == 7 && |"number"| == 6 && |"string"| == 6 && |"unknown"| == 7 && |"null"| == 4 && |"mixed"| == 5;
    assert "boolean"[0] == 'b' && "integer"[0] == 'i' && "unknown"[0] == 'u' && "number"[0] == 'n' && "string"[0] == 's';
  }

  lemma {:induction false} KindNames(x: J.Json, y: J.Json)
    requires !x.Null? && !y.Null?
    ensures ScalarType(x) == ScalarType(y) <==> SameKind(x, y)
    ensures ScalarType(x) == NAMES[0] <==> x.Bool?
    ensures ScalarType(x) == NAMES[1] <==> x.Int?
    ensures ScalarType(x) == NAMES[2] <==> x.Float?
    ensures ScalarType(x) == NAMES[3] <==> x.Str?
    ensures ScalarType(x) == NAMES[4] <==> x.List? || x.Object?
    ensures ScalarType(x) in NAMES
  {
    NamesApart();
  }

  lemma {:induction false} JoinIsOne(vs: seq<J.Json>, name: string, kind: J.Json -> bool)
    requires name != "null" && name != "mixed"
    requires forall i | 0 <= i < |vs| :: kind(vs[i]) <==> !vs[i].Null? && ScalarType(vs[i]) == name
    ensures TypeJoin(ValueTypes(vs)) == name <==> AllOf(vs, kind)
  {
    var types := ValueTypes(vs);
    if AllOf(vs, kind) {
      var i :| 0 <= i < |vs| && kind(vs[i]);
      assert ScalarType(vs[i]) in types;
      assert types == {name};
      SingletonMember(types, name);
    }
    if TypeJoin(types) == name {
      SingletonMember(types, name);
      assert name in types;
      forall i | 0 <= i < |vs| ensures kind(vs[i]) || vs[i].Null? { assert !vs[i].Null? ==> ScalarType(vs[i]) in types; }
    }
  }

  lemma {:induction false} JoinIsNull(vs: seq<J.Json>)
    ensures TypeJoin(ValueTypes(vs)) == "null" <==> forall i | 0 <= i < |vs| :: vs[i].Null?
  {
    var types := ValueTypes(vs);
    NamesApart();
    if i :| 0 <= i < |vs| && !vs[i].Null? {
      assert ScalarType(vs[i]) in types;
      if |types| == 1 {
        SingletonMember(types, ScalarType(vs[i]));
        KindNames(vs[i], vs[i]);
      }
    }
  }

  lemma {:induction false} JoinIsMixed(vs: seq<J.Json>)
    ensures TypeJoin(ValueTypes(vs)) == "mixed" <==> TwoKinds(vs)
  {
    var types := ValueTypes(vs);
    NamesApart();
    if TwoKinds(vs) {
      var i, j :| 0 <= i < |vs| && 0 <= j < |vs| && !vs[i].Null? && !vs[j].Null? && !SameKind(vs[i], vs[j]);
      KindNames(vs[i], vs[j]);
      assert ScalarType(vs[i]) in types && ScalarType(vs[j]) in types;
      if |types| == 1 { SingletonMember(types, ScalarType(vs[i])); }
    } else if types != {} {
      var t :| t in types;
      var i :| 0 <= i < |vs| && !vs[i].Null? && ScalarType(vs[i]) == t;
      KindNames(vs[i], vs[i]);
      forall u | u in types ensures u == t {
        var j :| 0 <= j < |vs| && !vs[j].Null? && ScalarType(vs[j]) == u;
        KindNames(vs[i], vs[j]);
      }
      assert types == {t};
      SingletonMember(types, t);
    }
  }

  /** The join of types, read by the kinds of the values. */
  lemma {:induction false} JoinMeans(vs: seq<J.Json>)
    ensures TypeMeans(TypeJoin(ValueTypes(vs)), vs)
  {
    NamesApart();
    forall i | 0 <= i < |vs| && !vs[i].Null? ensures ScalarType(vs[i]) in NAMES { KindNames(vs[i], vs[i]); }
    JoinIsNull(vs);
    JoinIsMixed(vs);
    KindsOf(vs);
    JoinIsOne(vs, NAMES[0], (v: J.Json) => v.Bool?);
    JoinIsOne(vs, NAMES[1], (v: J.Json) => v.Int?);
    JoinIsOne(vs, NAMES[2], (v: J.Json) => v.Float?);
    JoinIsOne(vs, NAMES[3], (v: J.Json) => v.Str?);
    JoinIsOne(vs, NAMES[4], (v: J.Json) => v.List? || v.Object?);
  }

  lemma {:induction false} KindsOf(vs: seq<J.Json>)
    ensures forall i | 0 <= i < |vs| && !vs[i].Null? ::
      && (ScalarType(vs[i]) == NAMES[0] <==> vs[i].Bool?) && (ScalarType(vs[i]) == NAMES[1] <==> vs[i].Int?)
      && (ScalarType(vs[i]) == NAMES[2] <==> vs[i].Float?) && (ScalarType(vs[i]) == NAMES[3] <==> vs[i].Str?)
      && (ScalarType(vs[i]) == NAMES[4] <==> vs[i].List? || vs[i].Object?)
  {
    forall i | 0 <= i < |vs| && !vs[i].Null?
      ensures ScalarType(vs[i]) == NAMES[0] <==> vs[i].Bool?
      ensures ScalarType(vs[i]) == NAMES[1] <==> vs[i].Int?
      ensures ScalarType(vs[i]) == NAMES[2] <==> vs[i].Float?
      ensures ScalarType(vs[i]) == NAMES[3] <==> vs[i].Str?
      ensures ScalarType(vs[i]) == NAMES[4] <==> vs[i].List? || vs[i].Object?
    {
      KindNames(vs[i], vs[i]);
    }
  }

  /** The type of a leaf after any scalars, and the item type of any list that is not empty
      and not all objects, say of which kinds the values are. */
  lemma {:induction false} TypesMean(path: string, vs: seq<J.Json>, items: seq<J.Json>)
    requires Scalars(vs) && vs != []
    ensures Streamed(vs).Some? && TypeMeans(Finalize(path, Streamed(vs).value).typ, vs)
    ensures TypeMeans(ArrayItemType(items), items)
  {
    FinishedLeaf(path, vs);
    JoinMeans(vs);
    JoinMeans(items);
    assert ArrayItemType(items) == TypeJoin(ValueTypes(items));
  }

  // ---- The example ----

  /** `v`, and of a string its first 200 characters. */
  predicate ExampleOf(e: J.Json, v: J.Json) {
    if v.Str? && |v.s| > 200 then e.Str? && |e.s| == 200 && e.s <= v.s else e == v
  }

  /** The example kept is that of the first value that is not null. */
  ghost predicate ExampleSays(e: Option<J.Json>, vs: seq<J.Json>) {
    if forall i | 0 <= i < |vs| :: vs[i].Null? then e.None?
    else e.Some? && exists i | 0 <= i < |vs| :: !vs[i].Null? && ExampleOf(e.value, vs[i]) && forall j | 0 <= j < i :: vs[j].Null?
  }

  lemma {:induction false} ExampleStays(e: Option<J.Json>, vs: seq<J.Json>, v: J.Json)
    requires ExampleSays(e, vs)
    ensures ExampleSays(if e.None? && !v.Null? then Some(Truncated(v)) else e, vs + [v])
  {
    var w := vs + [v];
    if e.Some? {
      var i :| 0 <= i < |vs| && !vs[i].Null? && ExampleOf(e.value, vs[i]) && forall j | 0 <= j < i :: vs[j].Null?;
      assert w[i] == vs[i] && forall j | 0 <= j < i :: w[j] == vs[j];
    } else if !v.Null? {
      assert w[|vs|] == v && forall j | 0 <= j < |vs| :: w[j] == vs[j];
      assert ExampleOf(Truncated(v), w[|vs|]);
    }
  }

  lemma {:induction false} ObservedExample(st: Option<NodeState>, v: J.Json)
    ensures Observed(st, v).example ==
      var e := if st.Some? then st.value.example else None; if e.None? && !v.Null? then Some(Truncated(v)) else e
  {
  }

  /** A leaf keeps the first value observed that is not null, a long string cut to 200 characters. */
  lemma {:induction false} FirstExample(vs: seq<J.Json>)
    requires vs != []
    ensures Streamed(vs).Some? && ExampleSays(Streamed(vs).value.example, vs)
  {
    var n := |vs| - 1;
    assert vs == vs[..n] + [vs[n]];
    StreamGrows(vs[..n], vs[n]);
    ObservedExample(Streamed(vs[..n]), vs[n]);
    if n > 0 {
      FirstExample(vs[..n]);
      ExampleStays(Streamed(vs[..n]).value.example, vs[..n], vs[n]);
    } else {
      assert Streamed([]) == None && vs[..n] == [];
      ExampleStays(None, [], vs[n]);
    }
  }

  // ---- The node of a value that objects lead to ----

  /** The value that a sequence of keys leads to. */
  function Below(v: J.Json, keys: seq<string>): Option<J.Json>
    decreases |keys|
  {
    if keys == [] then Some(v)
    else if v.Object? && J.FieldOf(v.fields, keys[0]).Some? then Below(J.FieldOf(v.fields, keys[0]).value, keys[1..])
    else None
  }

  /** The keys, joined by dots. */
  function Dotted(parent: string, keys: seq<string>): string
    decreases |keys|
  {
    if keys == [] then parent else Dotted(if parent == "" then keys[0] else parent + "." + keys[0], keys[1..])
  }

  /** The updates of a value's own path. */
  function OwnUpdates(v: J.Json): seq<Update> {
    match v
    case Object(_) => [Ensure("object"), Ensure("object")]
    case List(items) =>
      [Ensure("array"), ItemType(if items == [] then "unknown" else if AllObjects(items) then "object" else ArrayItemType(items))]
    case _ => [Observe(v)]
  }

  lemma {:induction false} LongerIsNotUnder(c: string, q: string)
    requires |c| > |q|
    ensures !Under(c, q)
  {
  }

  lemma {:induction false} MembersLeaveParent(fs: seq<J.Field>, parent: string)
    requires parent != "" && CleanFields(fs)
    ensures At(EmitFields(fs, parent), parent) == []
  {
    FieldsElsewhere(fs, parent, parent);
  }

  lemma {:induction false} OwnItems(items: seq<J.Json>, path: string)
    requires path != ""
    ensures At([Op(path, Ensure("array"))] + WalkItems(items, path), path) == OwnUpdates(J.List(items))
  {
    var under := ArrayPath(path);
    LongerIsNotUnder(under, path);
    AtOne(path, Ensure("array"), path);
    AtAppend([Op(path, Ensure("array"))], WalkItems(items, path), path);
    if items == [] {
      AtOne(path, ItemType("unknown"), path);
    } else if AllObjects(items) {
      OwnObjects(items, path);
    } else {
      AtOne(path, ItemType(ArrayItemType(items)), path);
      EmitItemsUnder(items, under);
      NotUnderNoUpdates(EmitItems(items, under), under, path);
      AtAppend(EmitItems(items, under), [Op(path, ItemType(ArrayItemType(items)))], path);
    }
  }

  lemma {:induction false} OwnObjects(items: seq<J.Json>, path: string)
    requires path != "" && items != [] && AllObjects(items)
    ensures At(WalkItems(items, path), path) == [ItemType("object")]
  {
    var under, t := ArrayPath(path), TallyItems(Tally([], map[]), items);
    var first, marks := [Op(path, ItemType("object"))], Optionals(t.keys, t.counts, |items|, under);
    LongerIsNotUnder(under, path);
    AtOne(path, ItemType("object"), path);
    ObjectsUnder(items, under);
    OptionalsUnder(t.keys, t.counts, |items|, under);
    NotUnderNoUpdates(EmitObjects(items, under), under, path);
    NotUnderNoUpdates(marks, under, path);
    AtAppend(first, EmitObjects(items, under), path);
    AtAppend(first + EmitObjects(items, under), marks, path);
  }

  lemma {:induction false} OwnEmit(path: string, v: J.Json)
    requires path != "" && J.KeysSatisfy(v, CleanKey)
    ensures At(Emit(path, v), path) == OwnUpdates(v)
  {
    match v
    case Object(fs) =>
      MembersLeaveParent(fs, path);
      AtOne(path, Ensure("object"), path);
      AtAppend([Op(path, Ensure("object"))], EmitFields(fs, path), path);
      AtAppend([Op(path, Ensure("object"))], Walk(v, path), path);
    case List(items) => OwnItems(items, path);
    case _ => AtOne(path, Observe(v), path);
  }

  lemma {:induction false} DottedUnder(parent: string, keys: seq<string>)
    requires parent != ""
    ensures Under(parent, Dotted(parent, keys)) && (keys != [] ==> |Dotted(parent, keys)| > |parent|)
    decreases |keys|
  {
    if keys != [] {
      UnderJoin(parent, keys[0]);
      DottedUnder(parent + "." + keys[0], keys[1..]);
      UnderTransitive(parent, parent + "." + keys[0], Dotted(parent, keys));
    }
  }

  lemma {:induction false} FieldBelow(fs: seq<J.Field>, parent: string, keys: seq<string>)
    requires J.Valid(J.Object(fs)) && J.KeysSatisfy(J.Object(fs), CleanKey) && keys != [] && Below(J.Object(fs), keys).Some?
    ensures At(EmitFields(fs, parent), Dotted(parent, keys)) == OwnUpdates(Below(J.Object(fs), keys).value)
    decreases |keys|
  {
    var k, path := keys[0], Join(parent, keys[0]);
    J.FieldOfFrom(fs, k);
    var i :| 0 <= i < |fs| && fs[i] == J.Field(k, J.FieldOf(fs, k).value);
    DottedUnder(path, keys[1..]);
    FieldsAt(fs, parent, Dotted(parent, keys), i);
    var x := fs[i].value;
    if keys[1..] == [] {
      OwnEmit(path, x);
    } else {
      FieldBelow(x.fields, path, keys[1..]);
      EmitBelow(x.fields, path, Dotted(path, keys[1..]));
    }
  }

  lemma {:induction false} EmitBelow(fs: seq<J.Field>, path: string, q: string)
    requires path != "" && path != q
    ensures At(Emit(path, J.Object(fs)), q) == At(EmitFields(fs, path), q)
  {
    AtOne(path, Ensure("object"), q);
    AtAppend([Op(path, Ensure("object"))], EmitFields(fs, path), q);
    AtAppend([Op(path, Ensure("object"))], Walk(J.Object(fs), path), q);
  }

  /** The node says of which kind the value is, whether it is null, what its items are, and
      keeps a scalar as its example and a string as its one value. */
  ghost predicate NodeSays(n: Node, v: J.Json) {
    && n.required && (n.nullable <==> v.Null?)
    && match v
       case Object(_) => n.typ == "object" && n.itemType.None? && n.example.None? && n.enums.None?
       case List(items) =>
         && n.typ == "array" && n.itemType.Some? && n.example.None? && n.enums.None?
         && (if items == [] then n.itemType == Some("unknown")
             else if AllObjects(items) then n.itemType == Some("object") else TypeMeans(n.itemType.value, items))
       case Str(s) => n.typ == "string" && n.itemType.None? && n.enums == Some([s]) && n.example.Some? && ExampleOf(n.example.value, v)
       case Null => n.typ == "null" && n.itemType.None? && n.enums.None? && n.example.None?
       case _ => TypeMeans(n.typ, [v]) && n.itemType.None? && n.enums.None? && n.example == Some(v)
  }

  lemma {:induction false} FoldedTwo(u: Update, w: Update)
    ensures Folded(None, [u, w]) == Applied(Applied(None, u), w)
  {
    assert [u, w][1..] == [w] && [w][1..] == [];
    assert Folded(Applied(None, u), [w]) == Folded(Applied(Applied(None, u), w), []);
  }

  lemma {:induction false} OwnNode(path: string, v: J.Json)
    ensures Folded(None, OwnUpdates(v)).Some? && NodeSays(Finalize(path, Folded(None, OwnUpdates(v)).value), v)
  {
    match v
    case Object(_) => FoldedTwo(Ensure("object"), Ensure("object"));
    case List(items) =>
      FoldedTwo(Ensure("array"), OwnUpdates(v)[1]);
      if items != [] && !AllObjects(items) { TypesMean(path, [J.Null], items); }
    case _ => ScalarNodeSays(path, v);
  }

  lemma {:induction false} TypeOfOne(t: string, v: J.Json)
    requires TypeMeans(t, [v])
    ensures (v.Str? ==> t == "string") && (v.Null? ==> t == "null")
  {
    if v.Str? { assert AllOf([v], (x: J.Json) => x.Str?) by { assert [v][0].Str?; } }
  }

  lemma {:induction false} StringsOfOne(v: J.Json)
    ensures Strings([v]) == if v.Str? then {v.s} else {}
    ensures v.Str? ==> SortedSet({v.s}) == [v.s]
    ensures HasNull([v]) <==> v.Null?
  {
    assert [v][0] == v;
    if v.Str? {
      var r := SortedSet({v.s});
      assert r[0] in set x | x in r;
    }
  }

  /** What a leaf of one value holds. */
  lemma {:induction false} OneObserved(path: string, v: J.Json)
    requires J.IsScalar(v)
    ensures Folded(None, [Observe(v)]).Some?
    ensures var n := Finalize(path, Folded(None, [Observe(v)]).value);
      && n.required && (n.nullable <==> v.Null?) && n.itemType.None? && TypeMeans(n.typ, [v])
      && n.enums == (if v.Str? then Some([v.s]) else None) && ExampleSays(n.example, [v])
  {
    assert Observations([v]) == [Observe(v)] by { assert [v][1..] == []; }
    FinishedLeaf(path, [v]);
    StreamingIsBatch([v]);
    StringsOfOne(v);
    FirstExample([v]);
    JoinMeans([v]);
  }

  lemma {:induction false} ExampleOfOne(e: Option<J.Json>, v: J.Json)
    requires ExampleSays(e, [v])
    ensures if v.Null? then e.None? else e.Some? && ExampleOf(e.value, v)
  {
    assert [v][0] == v;
  }

  lemma {:induction false} ScalarNodeSays(path: string, v: J.Json)
    requires J.IsScalar(v)
    ensures Folded(None, [Observe(v)]).Some? && NodeSays(Finalize(path, Folded(None, [Observe(v)]).value), v)
  {
    OneObserved(path, v);
    var n := Finalize(path, Folded(None, [Observe(v)]).value);
    TypeOfOne(n.typ, v);
    ExampleOfOne(n.example, v);
  }

  /** For a document that is an object with clean keys, the schema has at every dotted path of
      keys a node that says what the document holds there. */
  lemma {:induction false} NodeOfValue(v: J.Json, keys: seq<string>)
    requires J.Valid(v) && J.KeysSatisfy(v, CleanKey) && v.Object? && keys != [] && Below(v, keys).Some?
    ensures exists n :: n in Infer(v) && n.path == Dotted("", keys) && NodeSays(n, Below(v, keys).value)
  {
    var path, x := Dotted("", keys), Below(v, keys).value;
    FieldBelow(v.fields, "", keys);
    assert [] + EmitFields(v.fields, "") == EmitFields(v.fields, "");
    OwnNode(path, x);
    var n := Finalize(path, Folded(None, OwnUpdates(x)).value);
    NodeOfState(Walk(v, ""), path, Folded(None, OwnUpdates(x)).value);
    assert n in Infer(v);
  }
}
