/** The JSON values that payloads and API responses are made of. Objects keep
    their members in insertion order, as Python dictionaries do. */
module Json {
  import opened Texts

  datatype Json =
    | Null
    | Bool(b: bool)
    | Int(i: int)
    | Float(lit: string)  // a float, known by the text Python prints for it
    | Str(s: string)
    | List(items: seq<Json>)
    | Object(fields: seq<Field>)

  datatype Field = Field(key: string, value: Json)

  function KeyOf(f: Field): string { f.key }

  predicate IsScalar(v: Json) { !v.List? && !v.Object? }

  ghost predicate DistinctKeys(fs: seq<Field>) {
    forall i, j | 0 <= i < j < |fs| :: fs[i].key != fs[j].key
  }

  /** Every object is a dictionary: no key occurs twice. */
  ghost predicate Valid(v: Json) {
    match v
    case List(items) => forall i | 0 <= i < |items| :: Valid(items[i])
    case Object(fs) => DistinctKeys(fs) && forall i | 0 <= i < |fs| :: Valid(fs[i].value)
    case _ => true
  }

  /** Every object key, at every depth, satisfies `ok`. */
  ghost predicate KeysSatisfy(v: Json, ok: string -> bool) {
    match v
    case List(items) => forall i | 0 <= i < |items| :: KeysSatisfy(items[i], ok)
    case Object(fs) => forall i | 0 <= i < |fs| :: ok(fs[i].key) && KeysSatisfy(fs[i].value, ok)
    case _ => true
  }

  /** The first value of a key. */
  function FieldOf(fs: seq<Field>, k: string): Option<Json> {
    if fs == [] then None else if fs[0].key == k then Some(fs[0].value) else FieldOf(fs[1..], k)
  }

  lemma {:induction false} FieldOfFrom(fs: seq<Field>, k: string)
    ensures FieldOf(fs, k).Some? ==> exists i | 0 <= i < |fs| :: fs[i] == Field(k, FieldOf(fs, k).value)
    ensures FieldOf(fs, k).None? ==> forall i | 0 <= i < |fs| :: fs[i].key != k
  {
    if fs != [] {
      FieldOfFrom(fs[1..], k);
      if fs[0].key != k && FieldOf(fs, k).Some? {
        var i :| 0 <= i < |fs[1..]| && fs[1..][i] == Field(k, FieldOf(fs, k).value);
        assert fs[i + 1] == Field(k, FieldOf(fs, k).value);
      }
      forall i | 0 <= i < |fs| && FieldOf(fs, k).None? ensures fs[i].key != k { assert i > 0 ==> fs[1..][i - 1] == fs[i]; }
    }
  }

  lemma {:induction false} FieldIsValid(fs: seq<Field>, k: string)
    requires Valid(Object(fs)) && FieldOf(fs, k).Some?
    ensures Valid(FieldOf(fs, k).value)
  {
    FieldOfFrom(fs, k);
  }
}
