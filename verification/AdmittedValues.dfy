/** What the severity of a reported change says about the values a field may hold: risky
    changes let in new ones and safe ones take some away, with one exception. */
module AdmittedValues {
  import opened Texts
  import opened SchemaInfer
  import opened SchemaDiff
  import opened InferOrder
  import opened InferLeaf
  import opened SchemaHistory
  import J = Json

  /** The values a node lets a consumer expect: null when it is nullable, values of its type,
      and of strings the listed ones when it lists any. */
  predicate Admits(n: Node, x: J.Json) {
    match x
    case Null => n.nullable
    case Bool(_) => n.typ in {"boolean", "mixed"}
    case Int(_) => n.typ in {"integer", "number", "mixed"}
    case Float(_) => n.typ in {"number", "mixed"}
    case Str(s) => n.typ in {"string", "mixed"} && (n.enums.Some? ==> s in n.enums.value)
    case List(_) => n.typ in {"array", "mixed"}
    case Object(_) => n.typ in {"object", "mixed"}
  }

  ghost predicate Gains(o: Node, n: Node) { exists x :: Admits(n, x) && !Admits(o, x) }

  ghost predicate Loses(o: Node, n: Node) { Gains(n, o) }

  /** Only where strings are held are values listed, as inference leaves it. */
  predicate ListsStrings(n: Node) { n.enums.Some? ==> n.typ in {"string", "mixed"} }

  /** New strings: one that was not listed, or any when none are listed any more. */
  ghost predicate GainsStrings(o: Node, n: Node) {
    o.enums.Some? && (n.enums.Some? ==> exists s | s in n.enums.value :: s !in o.enums.value)
  }

  lemma {:induction false} AnotherString(listed: seq<string>) returns (s: string)
    ensures s !in listed
  {
    s := Longer(listed);
    LongerIsNew(listed);
  }

  function Longer(listed: seq<string>): string { if listed == [] then "" else "+" + listed[0] + Longer(listed[1..]) }

  lemma {:induction false} LongerIsNew(listed: seq<string>)
    ensures forall s | s in listed :: |s| < |Longer(listed)|
  {
    if listed != [] {
      LongerIsNew(listed[1..]);
      forall s | s in listed ensures |s| < |Longer(listed)| { assert s == listed[0] || s in listed[1..]; }
    }
  }

  lemma {:induction false} StringsGained(o: Node, n: Node)
    requires o.typ == n.typ && ListsStrings(o) && ListsStrings(n) && GainsStrings(o, n)
    ensures Gains(o, n)
  {
    if n.enums.Some? {
      var s :| s in n.enums.value && s !in o.enums.value;
      assert Admits(n, J.Str(s)) && !Admits(o, J.Str(s));
    } else {
      var s := AnotherString(o.enums.value);
      assert Admits(n, J.Str(s)) && !Admits(o, J.Str(s));
    }
  }

  /** With one type and no new null, only new strings are new. */
  lemma {:induction false} GainsAreStrings(o: Node, n: Node)
    requires o.typ == n.typ && ListsStrings(o) && ListsStrings(n) && (n.nullable ==> o.nullable)
    ensures Gains(o, n) <==> GainsStrings(o, n)
  {
    if GainsStrings(o, n) { StringsGained(o, n); }
    if Gains(o, n) {
      var x :| Admits(n, x) && !Admits(o, x);
      assert x.Str? && x.s !in o.enums.value;
    }
  }

  lemma {:induction false} EnumsAsSets(o: Node, n: Node)
    requires o.enums.Some? && n.enums.Some?
    ensures GainsStrings(o, n) <==> !(SetOf(n.enums.value) <= SetOf(o.enums.value))
  {
    if !(SetOf(n.enums.value) <= SetOf(o.enums.value)) {
      var s :| s in SetOf(n.enums.value) && s !in SetOf(o.enums.value);
      assert s in n.enums.value && s !in o.enums.value;
    }
    if s :| s in n.enums.value && s !in o.enums.value {
      assert s in SetOf(n.enums.value) && s !in SetOf(o.enums.value);
    }
  }

  lemma {:induction false} NullGained(o: Node, n: Node)
    requires n.nullable && !o.nullable
    ensures Gains(o, n)
  {
    assert Admits(n, J.Null) && !Admits(o, J.Null);
  }

  lemma {:induction false} FloatGained(o: Node, n: Node)
    requires o.typ == "integer" && n.typ == "number"
    ensures Gains(o, n)
  {
    assert |"integer"| == 7 && |"number"| == 6 && |"mixed"| == 5;
    assert Admits(n, J.Float("0.5")) && !Admits(o, J.Float("0.5"));
  }

  /** Exactly when a change that is not breaking is risky: it lets in a value, except when
      null is taken away at the same time, which is reported instead. A safe one takes a
      value away. */
  lemma {:induction false} SeverityMeans(o: Node, n: Node, c: Change)
    requires PickChange(o, n) == Some(c) && Classify(c) != Breaking && ListsStrings(o) && ListsStrings(n)
    ensures Classify(c) == Risky <==> Gains(o, n) && !(o.nullable && !n.nullable && o.typ == n.typ)
    ensures Classify(c) == Safe ==> Loses(o, n) && (Gains(o, n) <==> c == NullableRemoved && GainsStrings(o, n))
  {
    match c
    case IntToNumber => FloatGained(o, n);
    case NullableAdded => NullGained(o, n);
    case NullableRemoved =>
      NullGained(n, o);
      GainsAreStrings(o, n);
    case _ =>
      EnumsAsSets(o, n);
      EnumsAsSets(n, o);
      GainsAreStrings(o, n);
      GainsAreStrings(n, o);
  }

  /** Nothing is reported of a path that lets in new values exactly when its list of values
      has been given up. */
  lemma {:induction false} QuietGains(o: Node, n: Node)
    requires PickChange(o, n).None? && ListsStrings(o) && ListsStrings(n)
    ensures Gains(o, n) <==> o.enums.Some? && n.enums.None?
  {
    ChangesMean(o, n);
    GainsAreStrings(o, n);
    if o.enums.Some? && n.enums.Some? { EnumsAsSets(o, n); }
  }

  /** Inference lists values only of strings. */
  lemma {:induction false} InferredListsStrings(v: J.Json, path: string)
    requires Lookup(Infer(v), path).Some?
    ensures ListsStrings(Lookup(Infer(v), path).value)
  {
    LookupInferred(v, path);
    FoldedStringsTyped(None, At(Walk(v, ""), path));
  }

  /** What an item of the diff says: the types on either side, the examples when the path is
      on both, and of a path on one side only that it appears, which is safe, or goes. */
  lemma {:induction false} ItemSays(before: seq<Node>, after: seq<Node>, d: Diff)
    requires d in DiffSchemas(before, after)
    ensures var o, n := Lookup(before, d.path), Lookup(after, d.path);
      && (o.Some? || n.Some?)
      && (d.oldType.Some? <==> o.Some?) && (o.Some? ==> d.oldType.value == o.value.typ)
      && (d.newType.Some? <==> n.Some?) && (n.Some? ==> d.newType.value == n.value.typ)
      && (o.Some? && n.Some? ==> d.oldValue == o.value.example && d.newValue == n.value.example && PickChange(o.value, n.value) == Some(d.change))
      && (o.None? || n.None? ==> d.oldValue.None? && d.newValue.None?)
      && (o.None? ==> d.change == AddedField && d.severity == Safe)
      && (n.None? ==> d.severity == Breaking && (d.change == NestedObjectRemoved <==> o.value.typ == "object"))
  {
    DiffReports(before, after, d);
    var o, n := Lookup(before, d.path), Lookup(after, d.path);
    assert ItemAt(ByPath(before), ByPath(after), d.path)[0] == d;
    ItemFields(d.path, o, n, ChangeOf(o, n).value);
  }

  lemma {:induction false} ItemFields(path: string, o: Option<Node>, n: Option<Node>, c: Change)
    requires ChangeOf(o, n) == Some(c)
    ensures var d := Item(path, c, o, n);
      && (o.Some? || n.Some?)
      && (d.oldType.Some? <==> o.Some?) && (o.Some? ==> d.oldType.value == o.value.typ)
      && (d.newType.Some? <==> n.Some?) && (n.Some? ==> d.newType.value == n.value.typ)
      && (o.Some? && n.Some? ==> d.oldValue == o.value.example && d.newValue == n.value.example && PickChange(o.value, n.value) == Some(c))
      && (o.None? || n.None? ==> d.oldValue.None? && d.newValue.None?)
      && (o.None? ==> c == AddedField && d.severity == Safe)
      && (n.None? ==> d.severity == Breaking && (c == NestedObjectRemoved <==> o.value.typ == "object"))
  {
  }

  // ---- Two responses that hide a new value ----

  lemma {:induction false} EmittedScalars(items: seq<J.Json>, path: string)
    requires Scalars(items)
    ensures At(EmitItems(items, path), path) == Observations(items)
  {
    if items != [] {
      EmittedScalars(items[1..], path);
      AtOne(path, Observe(items[0]), path);
      AtAppend(Emit(path, items[0]), EmitItems(items[1..], path), path);
    }
  }

  /** `{"a": items}` */
  function ListUnderA(items: seq<J.Json>): J.Json { J.Object([J.Field("a", J.List(items))]) }

  /** The items of the list are what is observed at `a[*]`. */
  lemma {:induction false} ItemsOfA(items: seq<J.Json>)
    requires Scalars(items) && items != []
    ensures At(Walk(ListUnderA(items), ""), "a[*]") == Observations(items)
  {
    var t := ArrayItemType(items);
    var body := EmitItems(items, "a[*]");
    assert ArrayPath("a") == "a[*]" && |"a[*]"| == 4 && Join("", "a") == "a";
    assert !items[0].Object?;
    assert WalkItems(items, "a") == body + [Op("a", ItemType(t))];
    EmittedScalars(items, "a[*]");
    AtOne("a", ItemType(t), "a[*]");
    AtOne("a", Ensure("array"), "a[*]");
    AtAppend(body, [Op("a", ItemType(t))], "a[*]");
    AtAppend([Op("a", Ensure("array"))], WalkItems(items, "a"), "a[*]");
    assert At(Emit("a", J.List(items)), "a[*]") == [] + (Observations(items) + []);
    OnlyA(items);
  }

  lemma {:induction false} OnlyA(items: seq<J.Json>)
    ensures Walk(ListUnderA(items), "") == Emit("a", J.List(items))
  {
    var fs, ops := ListUnderA(items).fields, Emit("a", J.List(items));
    assert Join("", "a") == "a";
    assert fs[1..] == [] && EmitFields(fs, "") == ops + [] == ops && [] + ops == ops;
  }

  lemma {:induction false} NodeOfItems(items: seq<J.Json>)
    requires Scalars(items) && items != []
    ensures Streamed(items).Some? && Lookup(Infer(ListUnderA(items)), "a[*]") == Some(Finalize("a[*]", Streamed(items).value))
  {
    ItemsOfA(items);
    StreamingIsBatch(items);
    LookupInferred(ListUnderA(items), "a[*]");
  }

  lemma {:induction false} TwoStrings(x: string, y: string)
    requires x != y
    ensures var vs, ws := [J.Str(x), J.Null], [J.Str(x), J.Str(y)];
      && Strings(vs) == {x} && Strings(ws) == {x, y} && HasNull(vs) && !HasNull(ws)
      && ValueTypes(vs) == {"string"} && ValueTypes(ws) == {"string"}
  {
    var vs, ws := [J.Str(x), J.Null], [J.Str(x), J.Str(y)];
    assert vs[0] == J.Str(x) && vs[1] == J.Null && ws[0] == J.Str(x) && ws[1] == J.Str(y);
    assert ScalarType(vs[0]) in ValueTypes(vs) && ScalarType(ws[0]) in ValueTypes(ws);
    assert vs[0].s in Strings(vs) && ws[0].s in Strings(ws) && ws[1].s in Strings(ws);
  }

  lemma {:induction false} StringLeaves(x: string, y: string)
    requires x != y
    ensures var vs, ws := [J.Str(x), J.Null], [J.Str(x), J.Str(y)];
      Streamed(vs).Some? && Streamed(ws).Some? &&
      var o, n := Finalize("a[*]", Streamed(vs).value), Finalize("a[*]", Streamed(ws).value);
      && o.typ == "string" && n.typ == "string" && o.nullable && !n.nullable
      && o.enums == Some(SortedSet({x})) && n.enums == Some(SortedSet({x, y}))
  {
    TwoStrings(x, y);
    assert |{x}| == 1 && |{x, y}| == 2;
    StringLeaf([J.Str(x), J.Null], {x});
    StringLeaf([J.Str(x), J.Str(y)], {x, y});
  }

  lemma {:induction false} StringLeaf(vs: seq<J.Json>, strings: set<string>)
    requires Scalars(vs) && vs != [] && ValueTypes(vs) == {"string"} && Strings(vs) == strings && 1 <= |strings| <= 10
    ensures Streamed(vs).Some?
    ensures var n := Finalize("a[*]", Streamed(vs).value);
      n.typ == "string" && (n.nullable <==> HasNull(vs)) && n.enums == Some(SortedSet(strings))
  {
    FinishedLeaf("a[*]", vs);
    SingletonMember({"string"}, "string");
  }

  lemma {:induction false} NewStringHidden(o: Node, n: Node, x: string, y: string)
    requires x != y && o.typ == "string" && n.typ == "string" && o.nullable && !n.nullable
    requires o.enums == Some(SortedSet({x})) && n.enums == Some(SortedSet({x, y}))
    ensures PickChange(o, n) == Some(NullableRemoved) && Admits(n, J.Str(y)) && !Admits(o, J.Str(y))
  {
    assert y in (set s | s in SortedSet({x, y})) && y !in (set s | s in SortedSet({x}));
  }

  /** From `{"a": [x, null]}` to `{"a": [x, y]}`, two different strings: the change of the items
      is reported as the safe end of null, and `y` is new. */
  lemma {:induction false} NullGoneHidesNewString(x: string, y: string)
    requires x != y
    ensures var o, n := Lookup(Infer(ListUnderA([J.Str(x), J.Null])), "a[*]"), Lookup(Infer(ListUnderA([J.Str(x), J.Str(y)])), "a[*]");
      o.Some? && n.Some? && PickChange(o.value, n.value) == Some(NullableRemoved) && Admits(n.value, J.Str(y)) && !Admits(o.value, J.Str(y))
  {
    var vs, ws := [J.Str(x), J.Null], [J.Str(x), J.Str(y)];
    NodeOfItems(vs);
    NodeOfItems(ws);
    StringLeaves(x, y);
    NewStringHidden(Finalize("a[*]", Streamed(vs).value), Finalize("a[*]", Streamed(ws).value), x, y);
  }
}
