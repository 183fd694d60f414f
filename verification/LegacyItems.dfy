/** What the entries of the older engine's diff say about the two payloads, and exactly which
    severities its passes set. */
module LegacyItems {
  import opened Texts
  import opened Paths
  import opened Severities
  import opened Classifier
  import opened Drift
  import opened Compatibility
  import opened VersionChain
  import opened TypedObjects
  import opened DiffItems
  import opened LegacyEngine
  import J = Json

  /** The engine's name for the value held. */
  predicate NameSays(name: Option<string>, x: Option<J.Json>) {
    match x
    case None => name.None?
    case Some(Null) => name == Some("null")
    case Some(Bool(_)) => name == Some("bool")
    case Some(Int(_)) => name == Some("int")
    case Some(Float(_)) => name == Some("float")
    case Some(Str(_)) => name == Some("string")
    case Some(List(_)) => name == Some("array")
    case Some(Object(_)) => false
  }

  predicate Primitive(x: J.Json) { x.Bool? || x.Int? || x.Float? || x.Str? }

  /** The severity set for finding `y` where `x` was: none where both are there and one of
      them is null or a list. */
  function SeverityOfChange(x: Option<J.Json>, y: Option<J.Json>): Option<Severity> {
    if x.None? then Some(Safe)
    else if y.None? then Some(Breaking)
    else if !Primitive(x.value) || !Primitive(y.value) then None
    else if x.value.Int? && y.value.Float? then Some(Risky)
    else Some(Breaking)
  }

  lemma {:induction false} ShowsNoObject(v: J.Json, p: Path)
    requires J.KeysSatisfy(v, NotType)
    ensures Shown(v, p).Some? ==> !Shown(v, p).value.Object?
    decreases p
  {
    match v
    case Object(fs) =>
      J.FieldOfFrom(fs, "type");
      if p.Then? && p.step.Key? && J.FieldOf(fs, p.step.k).Some? {
        J.FieldOfFrom(fs, p.step.k);
        ShowsNoObject(J.FieldOf(fs, p.step.k).value, p.rest);
      }
    case List(items) =>
      if p.Then? && p.step.Index? && p.step.i < |items| { ShowsNoObject(items[p.step.i], p.rest); }
    case _ =>
  }

  lemma {:induction false} NameTranslates(t: Option<TypeName>, name: Option<string>, x: Option<J.Json>)
    requires TypeSays(t, x) && Translates(t, name) && (x.Some? ==> !x.value.Object?)
    ensures NameSays(name, x)
  {
    assert |"null"| == 4 && |"boolean"| == 7 && |"integer"| == 7 && |"number"| == 6 && |"string"| == 6 && |"array"| == 5;
    assert "boolean"[0] != "integer"[0] && "number"[0] != "string"[0];
  }

  /** A named value is one of the primitive types, and its name no `nullable_` one. */
  lemma {:induction false} NamesMean(name: string, x: J.Json)
    requires NameSays(Some(name), Some(x))
    ensures name in PRIMITIVES <==> Primitive(x)
    ensures name == "int" <==> x.Int?
    ensures name == "float" <==> x.Float?
    ensures !(NULLABLE <= name)
  {
    assert |"null"| == 4 && |"bool"| == 4 && |"int"| == 3 && |"float"| == 5 && |"string"| == 6 && |"array"| == 5;
    assert "null"[0] != "bool"[0] && "float"[0] != "array"[0];
    assert |NULLABLE| == 9;
  }

  lemma {:induction false} NamesTellKinds(a: string, x: J.Json, b: string, y: J.Json)
    requires NameSays(Some(a), Some(x)) && NameSays(Some(b), Some(y)) && !SameKind(Some(x), Some(y))
    ensures a != b
  {
    assert |"null"| == 4 && |"bool"| == 4 && |"int"| == 3 && |"float"| == 5 && |"string"| == 6 && |"array"| == 5;
    assert "null"[0] != "bool"[0] && "float"[0] != "array"[0];
  }

  /** Which severity the three passes leave. */
  lemma {:induction false} PassesSet(a: Option<string>, x: Option<J.Json>, b: Option<string>, y: Option<J.Json>)
    requires NameSays(a, x) && NameSays(b, y) && !SameKind(x, y)
    ensures LegacyClass(a, b) == SeverityOfChange(x, y)
    ensures LegacyClass(a, b).None? <==> x.Some? && y.Some? && (x.value.Null? || x.value.List? || y.value.Null? || y.value.List?)
  {
    if a.Some? { NamesMean(a.value, x.value); }
    if b.Some? { NamesMean(b.value, y.value); }
    if a.Some? && b.Some? { NamesTellKinds(a.value, x.value, b.value, y.value); }
  }

  /** For object payloads with clean keys and no key `type`: every entry of the engine's diff
      is about a path at which the payloads hold different kinds, names both, and ends with
      the severity of that change, which is set unless one of them is null or a list. */
  lemma {:induction false} EntriesDescribe(fs: seq<J.Field>, gs: seq<J.Field>, i: nat) returns (p: Path)
    requires CleanPayload(J.Object(fs)) && CleanPayload(J.Object(gs))
    requires J.KeysSatisfy(J.Object(fs), NotType) && J.KeysSatisfy(J.Object(gs), NotType)
    requires i < |StructuralDiff(NormalizeTypes(J.Object(fs)), NormalizeTypes(J.Object(gs)))|
    ensures var v, w := J.Object(fs), J.Object(gs);
      var l, x, y := StructuralDiff(NormalizeTypes(v), NormalizeTypes(w))[i], Shown(v, p), Shown(w, p);
      && CleanPath(p) && l.path == Slot(Render("", p)) && !SameKind(x, y)
      && NameSays(l.before, x) && NameSays(l.after, y)
      && LegacyClass(l.before, l.after) == SeverityOfChange(x, y)
  {
    var v, w := J.Object(fs), J.Object(gs);
    EnginesAgree(fs, gs);
    var d, l := Diff(Canonicalize(v), Canonicalize(w))[i], StructuralDiff(NormalizeTypes(v), NormalizeTypes(w))[i];
    assert SameItem(d, l);
    p := ItemsDescribe(v, w, i);
    ShowsNoObject(v, p);
    ShowsNoObject(w, p);
    NameTranslates(d.oldType, l.before, Shown(v, p));
    NameTranslates(d.newType, l.after, Shown(w, p));
    PassesSet(l.before, Shown(v, p), l.after, Shown(w, p));
  }
}
