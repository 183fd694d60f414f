/** What the items of a diff say about the two payloads: where each is, what either payload
    holds there, and the class of going from the one to the other. */
module DiffItems {
  import opened Texts
  import opened Paths
  import opened Severities
  import opened Classifier
  import opened Drift
  import opened Compatibility
  import opened VersionChain
  import opened TypedObjects
  import J = Json

  // ---- What a payload holds at a path ----

  /** The value a payload shows at a path: a scalar, a list, or an object with a key `type`,
      which hides what is below it; other objects show their members only. */
  function Shown(v: J.Json, p: Path): Option<J.Json>
    decreases p
  {
    match v
    case Object(fs) =>
      if J.FieldOf(fs, "type").Some? then (if p.End? then Some(v) else None)
      else if p.Then? && p.step.Key? && J.FieldOf(fs, p.step.k).Some? then Shown(J.FieldOf(fs, p.step.k).value, p.rest)
      else None
    case List(items) =>
      if p.End? then Some(v)
      else if p.step.Index? && p.step.i < |items| then Shown(items[p.step.i], p.rest)
      else None
    case _ => if p.End? then Some(v) else None
  }

  function EntryOf(x: Option<J.Json>): Option<Schema> {
    if x.None? then None else if x.value.List? then Some(ARRAY_ENTRY) else Some(Canonicalize(x.value))
  }

  /** The canonical schema shows, at every path, what the payload shows there. */
  lemma {:induction false} ShownAt(v: J.Json, p: Path)
    requires J.Valid(v)
    ensures At(Canonicalize(v), p) == EntryOf(Shown(v, p))
    decreases p
  {
    match v
    case Object(fs) =>
      CanonicalReads(fs);
      if p.Then? && p.step.Key? && J.FieldOf(fs, "type").None? {
        CanonicalFind(fs, p.step.k);
        if J.FieldOf(fs, p.step.k).Some? {
          J.FieldIsValid(fs, p.step.k);
          ShownAt(J.FieldOf(fs, p.step.k).value, p.rest);
        }
      }
    case List(items) =>
      if p.Then? && p.step.Index? && p.step.i < |items| { ShownAt(items[p.step.i], p.rest); }
    case _ =>
  }

  /** The flat entry of a rendered path is what the tree shows there. */
  lemma {:induction false} GetIsAt(s: Schema, p: Path)
    requires Clean(s) && CleanPath(p)
    ensures Get(Flatten(s, ""), Slot(Render("", p))) == At(s, p)
  {
    var slot := Slot(Render("", p));
    if At(s, p).Some? {
      FlattenComplete(s, "", p);
    } else if slot in Flatten(s, "") {
      var q := FlattenSound(s, "", slot);
      SlotInjective("", p, q);
    }
  }

  lemma {:induction false} GetIsShown(v: J.Json, p: Path)
    requires CleanPayload(v) && CleanPath(p)
    ensures Get(Flatten(Canonicalize(v), ""), Slot(Render("", p))) == EntryOf(Shown(v, p))
  {
    CanonicalIsClean(v);
    GetIsAt(Canonicalize(v), p);
    ShownAt(v, p);
  }

  // ---- Types, nullability and classes, by what is held ----

  /** The reported type is that of the value held; an object with a key `type` is known by
      the schema under that key. */
  predicate TypeSays(t: Option<TypeName>, x: Option<J.Json>) {
    match x
    case None => t.None?
    case Some(Null) => t == Some(Named("null"))
    case Some(Bool(_)) => t == Some(Named("boolean"))
    case Some(Int(_)) => t == Some(Named("integer"))
    case Some(Float(_)) => t == Some(Named("number"))
    case Some(Str(_)) => t == Some(Named("string"))
    case Some(List(_)) => t == Some(Named("array"))
    case Some(Object(fs)) => J.FieldOf(fs, "type").Some? && t == Some(Printed(Canonicalize(J.FieldOf(fs, "type").value)))
  }

  /** An empty list or object, which is false to Python. */
  predicate Empty(x: J.Json) { x == J.List([]) || x == J.Object([]) }

  /** The flag an object with a key `type` holds under another key. */
  function Flag(fs: seq<J.Field>, k: string): Option<bool> {
    if J.FieldOf(fs, k).Some? then Some(!Empty(J.FieldOf(fs, k).value)) else None
  }

  /** Whether a value is nullable: null is, objects say so themselves, nothing else is. */
  function NullFlag(x: J.Json): Option<bool> {
    match x
    case Null => Some(true)
    case Object(fs) => Flag(fs, "nullable")
    case _ => Some(false)
  }

  predicate NullableSays(n: Option<bool>, x: Option<J.Json>) { n == if x.Some? then NullFlag(x.value) else None }

  predicate SameType(x: J.Json, y: J.Json) {
    match x
    case Null => y.Null?
    case Bool(_) => y.Bool?
    case Int(_) => y.Int?
    case Float(_) => y.Float?
    case Str(_) => y.Str?
    case List(_) => y.List?
    case Object(fs) =>
      && y.Object? && J.FieldOf(fs, "type").Some? && J.FieldOf(y.fields, "type").Some?
      && Canonicalize(J.FieldOf(fs, "type").value) == Canonicalize(J.FieldOf(y.fields, "type").value)
  }

  predicate FlagIs(x: J.Json, k: string, b: bool) { x.Object? && Flag(x.fields, k) == Some(b) }

  /** The class of finding `y` where `x` was. Added values are SAFE unless they say they are
      required; removed ones are BREAKING unless they say they are not. An integer that
      becomes a float is RISKY, any other new type BREAKING. Of two objects of one type the
      one that becomes nullable is BACKWARD_COMPATIBLE, one that no longer is BREAKING. */
  function ClassOfChange(x: Option<J.Json>, y: Option<J.Json>): Severity
    requires x.Some? || y.Some?
  {
    if x.None? then (if FlagIs(y.value, "required", true) then ForwardCompatible else Safe)
    else if y.None? then (if FlagIs(x.value, "required", false) then Risky else Breaking)
    else if !SameType(x.value, y.value) then (if x.value.Int? && y.value.Float? then Risky else Breaking)
    else if NullFlag(x.value) == Some(false) && NullFlag(y.value) == Some(true) then BackwardCompatible
    else if NullFlag(x.value) == Some(true) && NullFlag(y.value) == Some(false) then Breaking
    else Safe
  }

  /** Both payloads hold nothing, or values of one kind, or objects of one schema. */
  predicate SameKind(x: Option<J.Json>, y: Option<J.Json>) {
    match x
    case None => y.None?
    case Some(Null) => y.Some? && y.value.Null?
    case Some(Bool(_)) => y.Some? && y.value.Bool?
    case Some(Int(_)) => y.Some? && y.value.Int?
    case Some(Float(_)) => y.Some? && y.value.Float?
    case Some(Str(_)) => y.Some? && y.value.Str?
    case Some(List(_)) => y.Some? && y.value.List?
    case Some(Object(_)) => y.Some? && Canonicalize(y.value) == Canonicalize(x.value)
  }

  predicate Showable(x: Option<J.Json>) { x.Some? && x.value.Object? ==> J.FieldOf(x.value.fields, "type").Some? }

  lemma {:induction false} ShownIsShowable(v: J.Json, p: Path)
    requires J.Valid(v)
    ensures Showable(Shown(v, p)) && (Shown(v, p).Some? ==> J.Valid(Shown(v, p).value))
    decreases p
  {
    match v
    case Object(fs) =>
      if p.Then? && p.step.Key? && J.FieldOf(fs, "type").None? && J.FieldOf(fs, p.step.k).Some? {
        J.FieldIsValid(fs, p.step.k);
        ShownIsShowable(J.FieldOf(fs, p.step.k).value, p.rest);
      }
    case List(items) =>
      if p.Then? && p.step.Index? && p.step.i < |items| { ShownIsShowable(items[p.step.i], p.rest); }
    case _ =>
  }

  lemma {:induction false} EmptyIsFalse(x: J.Json)
    ensures Truthy(Canonicalize(x)) <==> !Empty(x)
  {
    if x.Object? { assert |Canonicalize(x).members| == |x.fields|; }
    if x.List? { assert |Canonicalize(x).items| == |x.items|; }
  }

  /** What an object with a key `type` says of itself. */
  lemma {:induction false} ObjectSays(fs: seq<J.Field>, default: bool)
    requires J.DistinctKeys(fs)
    ensures var s := Canonicalize(J.Object(fs));
      && NullableOf(s) == Flag(fs, "nullable")
      && RequiredOr(s, default) == if Flag(fs, "required").Some? then Flag(fs, "required").value else default
  {
    CanonicalReads(fs);
    CanonicalFind(fs, "required");
    if J.FieldOf(fs, "nullable").Some? { EmptyIsFalse(J.FieldOf(fs, "nullable").value); }
    if J.FieldOf(fs, "required").Some? { EmptyIsFalse(J.FieldOf(fs, "required").value); }
  }

  lemma {:induction false} EntrySays(x: Option<J.Json>)
    requires Showable(x) && (x.Some? ==> J.Valid(x.value))
    ensures TypeSays(if EntryOf(x).Some? then Some(TypeOf(EntryOf(x).value)) else None, x)
    ensures NullableSays(if EntryOf(x).Some? then NullableOf(EntryOf(x).value) else None, x)
  {
    if x.Some? && x.value.Object? {
      CanonicalReads(x.value.fields);
      ObjectSays(x.value.fields, true);
    }
  }

  /** Equal types are equal by the reported names. */
  lemma {:induction false} TypesSay(x: J.Json, y: J.Json, s: TypeName, t: TypeName)
    requires TypeSays(Some(s), Some(x)) && TypeSays(Some(t), Some(y))
    ensures s == t <==> SameType(x, y)
    ensures s == Named("integer") <==> x.Int?
    ensures t == Named("number") <==> y.Float?
  {
    assert |"null"| == 4 && |"boolean"| == 7 && |"integer"| == 7 && |"number"| == 6 && |"string"| == 6 && |"array"| == 5;
    assert "boolean"[0] != "integer"[0] && "number"[0] != "string"[0];
  }

  lemma {:induction false} PlainKinds(x: J.Json, y: J.Json)
    requires !x.Object? && !y.Object?
    ensures EntryOf(Some(x)) == EntryOf(Some(y)) <==> SameKind(Some(x), Some(y))
  {
    assert |"null"| == 4 && |"boolean"| == 7 && |"integer"| == 7 && |"number"| == 6 && |"string"| == 6 && |"array"| == 5;
    assert "boolean"[0] != "integer"[0] && "number"[0] != "string"[0];
  }

  lemma {:induction false} SameKindSameEntry(x: Option<J.Json>, y: Option<J.Json>)
    ensures EntryOf(x) == EntryOf(y) <==> SameKind(x, y)
  {
    if x.Some? && y.Some? {
      if x.value.Object? || y.value.Object? {
        ObjectKinds(x.value, y.value);
      } else {
        PlainKinds(x.value, y.value);
      }
    }
  }

  lemma {:induction false} ObjectKinds(x: J.Json, y: J.Json)
    requires x.Object? || y.Object?
    ensures EntryOf(Some(x)) == EntryOf(Some(y)) <==> SameKind(Some(x), Some(y))
  {
    assert !x.Object? ==> EntryOf(Some(x)).value.Leaf?;
    assert !y.Object? ==> EntryOf(Some(y)).value.Leaf?;
  }

  lemma {:induction false} AllowNothing(x: J.Json)
    ensures AllowedOf(EntryOf(Some(x)).value).None?
  {
  }

  lemma {:induction false} ClassWithoutValues(a: Schema, b: Schema)
    requires AllowedOf(a).None?
    ensures ClassifyChange(a, b) ==
      if TypeOf(a) != TypeOf(b) then (if TypeOf(a) == Named("integer") && TypeOf(b) == Named("number") then Risky else Breaking)
      else if NullableOf(a) == Some(false) && NullableOf(b) == Some(true) then BackwardCompatible
      else if NullableOf(a) == Some(true) && NullableOf(b) == Some(false) then Breaking
      else Safe
  {
  }

  lemma {:induction false} ValuesHaveClass(x: J.Json, y: J.Json)
    requires Showable(Some(x)) && Showable(Some(y)) && J.Valid(x) && J.Valid(y)
    ensures ClassifyChange(EntryOf(Some(x)).value, EntryOf(Some(y)).value) == ClassOfChange(Some(x), Some(y))
  {
    var a, b := EntryOf(Some(x)).value, EntryOf(Some(y)).value;
    EntrySays(Some(x));
    EntrySays(Some(y));
    TypesSay(x, y, TypeOf(a), TypeOf(b));
    AllowNothing(x);
    ClassWithoutValues(a, b);
  }

  lemma {:induction false} AddedHasClass(x: J.Json)
    requires Showable(Some(x)) && J.Valid(x)
    ensures Classify(None, EntryOf(Some(x))) == ClassOfChange(None, Some(x))
    ensures Classify(EntryOf(Some(x)), None) == ClassOfChange(Some(x), None)
  {
    if x.Object? {
      ObjectSays(x.fields, false);
      ObjectSays(x.fields, true);
    }
  }

  lemma {:induction false} ChangeHasClass(x: Option<J.Json>, y: Option<J.Json>)
    requires Showable(x) && Showable(y) && (x.Some? ==> J.Valid(x.value)) && (y.Some? ==> J.Valid(y.value)) && (x.Some? || y.Some?)
    ensures Classify(EntryOf(x), EntryOf(y)) == ClassOfChange(x, y)
  {
    if x.None? { AddedHasClass(y.value); }
    else if y.None? { AddedHasClass(x.value); }
    else { ValuesHaveClass(x.value, y.value); }
  }

  /** An item tells of one path: the types and nullability of what the first and the second
      payload hold there, and its class by their kinds. */
  ghost predicate Describes(d: DiffItem, v: J.Json, w: J.Json, p: Path) {
    var x, y := Shown(v, p), Shown(w, p);
    && CleanPath(p) && d.path == Slot(Render("", p)) && !SameKind(x, y)
    && TypeSays(d.oldType, x) && TypeSays(d.newType, y)
    && NullableSays(d.oldNullable, x) && NullableSays(d.newNullable, y)
    && d.classification == ClassOfChange(x, y)
  }

  lemma {:induction false} ItemDescribes(d: DiffItem, v: J.Json, w: J.Json, p: Path)
    requires CleanPayload(v) && CleanPayload(w) && CleanPath(p) && !SameKind(Shown(v, p), Shown(w, p))
    requires var k := Slot(Render("", p));
      var o, n := Get(Flatten(Canonicalize(v), ""), k), Get(Flatten(Canonicalize(w), ""), k);
      o != n && d == ItemFor(k, o, n)
    ensures Describes(d, v, w, p)
  {
    var x, y := Shown(v, p), Shown(w, p);
    GetIsShown(v, p);
    GetIsShown(w, p);
    ShownIsShowable(v, p);
    ShownIsShowable(w, p);
    EntrySays(x);
    EntrySays(y);
    ChangeHasClass(x, y);
  }

  lemma {:induction false} SlotHasPath(v: J.Json, slot: string) returns (p: Path)
    requires CleanPayload(v) && slot in Flatten(Canonicalize(v), "")
    ensures CleanPath(p) && slot == Slot(Render("", p))
  {
    CanonicalIsClean(v);
    p := FlattenSound(Canonicalize(v), "", slot);
  }

  /** For payloads with clean keys, every item of the diff describes some path. */
  lemma {:induction false} ItemsDescribe(v: J.Json, w: J.Json, i: nat) returns (p: Path)
    requires CleanPayload(v) && CleanPayload(w) && i < |Diff(Canonicalize(v), Canonicalize(w))|
    ensures Describes(Diff(Canonicalize(v), Canonicalize(w))[i], v, w, p)
  {
    var d := Diff(Canonicalize(v), Canonicalize(w))[i];
    var o, n := Flatten(Canonicalize(v), ""), Flatten(Canonicalize(w), "");
    DiffReports(Canonicalize(v), Canonicalize(w));
    if d.path in o { p := SlotHasPath(v, d.path); } else { p := SlotHasPath(w, d.path); }
    GetIsShown(v, p);
    GetIsShown(w, p);
    SameKindSameEntry(Shown(v, p), Shown(w, p));
    ItemDescribes(d, v, w, p);
  }

  /** And a path has an item exactly when the two payloads hold different kinds there. */
  lemma {:induction false} DifferentKindsAreListed(v: J.Json, w: J.Json, p: Path)
    requires CleanPayload(v) && CleanPayload(w) && CleanPath(p)
    ensures Lists(Diff(Canonicalize(v), Canonicalize(w)), Slot(Render("", p))) <==> !SameKind(Shown(v, p), Shown(w, p))
  {
    DiffReports(Canonicalize(v), Canonicalize(w));
    GetIsShown(v, p);
    GetIsShown(w, p);
    SameKindSameEntry(Shown(v, p), Shown(w, p));
  }
}
