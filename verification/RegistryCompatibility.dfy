/** What the stored classes of an endpoint's versions guarantee about its schemas,
    in every reachable state, when all submitted payloads are of a given kind. */
module RegistryCompatibility {
  import opened Texts
  import opened Paths
  import opened Severities
  import opened Classifier
  import opened Drift
  import opened Compatibility
  import opened VersionChain
  import opened RegistryModel
  import opened RegistryChain
  import J = Json

  /** Every call submits the schema of a payload satisfying `ok`. */
  ghost predicate Submits(acts: seq<Action>, ok: J.Json -> bool) {
    forall i | 0 <= i < |acts| && acts[i].Begin? :: IsSchemaOf(acts[i].schema, ok)
  }

  ghost predicate IsSchemaOf(schema: Schema, ok: J.Json -> bool) {
    exists v :: ok(v) && schema == Canonicalize(v)
  }

  ghost predicate TxFrom(tx: Tx, ok: J.Json -> bool) {
    IsSchemaOf(tx.schema, ok) && (Pending(tx) ==> IsSchemaOf(PendingRow(tx).schema, ok))
  }

  ghost predicate RowsFrom(rows: seq<Row>, ok: J.Json -> bool) {
    forall k | 0 <= k < |rows| :: IsSchemaOf(rows[k].schema, ok)
  }

  ghost predicate From(s: State, ok: J.Json -> bool) {
    && (forall t | t in s.txs :: TxFrom(s.txs[t], ok))
    && (forall e :: RowsFrom(Rows(s, e), ok))
  }

  lemma {:induction false} LocalKeepsFrom(s: State, s': State, t: nat, ok: J.Json -> bool)
    requires From(s, ok) && LocalTo(s, s', t)
    requires t in s'.txs ==> TxFrom(s'.txs[t], ok)
    ensures From(s', ok)
  {
    forall e ensures RowsFrom(Rows(s', e), ok) { assert RowsFrom(Rows(s, e), ok) && Rows(s', e) == Rows(s, e); }
  }

  /** No step but a call's own first one brings in a schema. */
  lemma {:induction false} StepKeepsSchemas(c: Config, s: State, a: Action)
    requires Enabled(c, s, a) && !a.Begin? && !a.ChangeSubscriptions? && !a.Commit?
    ensures var s' := Do(c, s, a);
      && LocalTo(s, s', a.t)
      && (a.t in s'.txs ==>
            && s'.txs[a.t].schema == s.txs[a.t].schema
            && (Pending(s'.txs[a.t]) ==>
                  PendingRow(s'.txs[a.t]).schema == if Pending(s.txs[a.t]) then PendingRow(s.txs[a.t]).schema else s.txs[a.t].schema))
  {
  }

  lemma {:induction false} CommitKeepsFrom(c: Config, s: State, t: nat, ok: J.Json -> bool)
    requires From(s, ok) && t in s.txs && MayCommit(c, s.txs[t])
    ensures From(DoCommit(c, s, t), ok)
  {
    var s', tx := DoCommit(c, s, t), s.txs[t];
    assert TxFrom(tx, ok);
    forall u | u in s'.txs ensures TxFrom(s'.txs[u], ok) { assert TxFrom(s.txs[u], ok); }
    if Pending(tx) { CommitPublishes(c, s, t); }
    forall e ensures RowsFrom(Rows(s', e), ok) { assert RowsFrom(Rows(s, e), ok); }
  }

  lemma {:induction false} RunsKeepFrom(c: Config, run: seq<State>, acts: seq<Action>, i: nat, ok: J.Json -> bool)
    requires IsRun(c, run, acts) && Submits(acts, ok) && i < |run|
    ensures From(run[i], ok)
    decreases i
  {
    if i > 0 {
      var s, a := run[i - 1], acts[i - 1];
      RunsKeepFrom(c, run, acts, i - 1, ok);
      assert Enabled(c, s, a) && run[i] == Do(c, s, a);
      if a.Commit? {
        CommitKeepsFrom(c, s, a.t, ok);
      } else if a.Begin? {
        LocalKeepsFrom(s, run[i], a.t, ok);
      } else if a.ChangeSubscriptions? {
        forall e ensures RowsFrom(Rows(run[i], e), ok) { assert RowsFrom(Rows(s, e), ok) && Rows(run[i], e) == Rows(s, e); }
      } else {
        StepKeepsSchemas(c, s, a);
        assert TxFrom(s.txs[a.t], ok);
        LocalKeepsFrom(s, run[i], a.t, ok);
      }
    }
  }

  // ---- Compatibility along the stored classes ----

  function Schemas(rows: seq<Row>): (chain: seq<Schema>)
    ensures |chain| == |rows| && forall k | 0 <= k < |rows| :: chain[k] == rows[k].schema
  {
    seq(|rows|, k requires 0 <= k < |rows| => rows[k].schema)
  }

  /** The service classifies a new version by summarising its diff. */
  ghost predicate Classifies(c: Config) {
    forall a, b :: c.classOf(a, b) == StepClass(a, b)
  }

  lemma {:induction false} StoredClass(c: Config, rows: seq<Row>, k: nat)
    requires Classifies(c) && Chain(c, rows) && 0 < k < |rows|
    ensures rows[k].cls == ClassAt(Schemas(rows), k)
  {
    assert RowOk(c, rows, k);
  }

  /** In every committed state a version with a predecessor stores exactly the summary
      of the diff of their schemas, and a first version stores SAFE: the provisional
      SAFE of an insert is never visible. */
  lemma {:induction false} StoredClassIsSummary(c: Config, run: seq<State>, acts: seq<Action>, n: nat, e: string, k: nat)
    requires Classifies(c) && IsRun(c, run, acts) && n < |run| && k < |Rows(run[n], e)|
    ensures var rows := Rows(run[n], e);
      rows[k].cls == if k == 0 then Safe else Summarize(Diff(rows[k - 1].schema, rows[k].schema))
  {
    RunsKeepChain(c, run, acts, n, e);
    assert RowOk(c, Rows(run[n], e), k);
  }

  /** For payloads without a key `type` that is also the summary of the diff against the
      predecessor as the database gives it back, with its keys in any order. */
  lemma {:induction false} StoredClassInAnyOrder(c: Config, run: seq<State>, acts: seq<Action>, n: nat, ok: J.Json -> bool,
                                                 e: string, k: nat, copy: Schema)
    requires Classifies(c) && IsRun(c, run, acts) && Submits(acts, ok) && n < |run|
    requires forall v | ok(v) :: J.Valid(v) && J.KeysSatisfy(v, CleanKey) && J.KeysSatisfy(v, NotType)
    requires 0 < k < |Rows(run[n], e)| && Reordered(Rows(run[n], e)[k - 1].schema, copy)
    ensures Rows(run[n], e)[k].cls == Summarize(Diff(copy, Rows(run[n], e)[k].schema))
  {
    var rows := Rows(run[n], e);
    StoredClassIsSummary(c, run, acts, n, e, k);
    RunsKeepFrom(c, run, acts, n, ok);
    assert RowsFrom(rows, ok) && IsSchemaOf(rows[k - 1].schema, ok);
    var v :| ok(v) && rows[k - 1].schema == Canonicalize(v);
    OrderIsNoDifference(v, copy, rows[k].schema);
  }

  /** A property of the schemas of all payloads submitted is one of every version's schema. */
  lemma {:induction false} EverySchema(rows: seq<Row>, ok: J.Json -> bool, prop: Schema -> bool)
    requires RowsFrom(rows, ok) && forall v | ok(v) :: prop(Canonicalize(v))
    ensures forall k | 0 <= k < |rows| :: prop(Schemas(rows)[k])
  {
    forall k | 0 <= k < |rows| ensures prop(Schemas(rows)[k]) {
      assert IsSchemaOf(rows[k].schema, ok);
      var v :| ok(v) && rows[k].schema == Canonicalize(v);
    }
  }

  lemma {:induction false} CommittedChain(c: Config, run: seq<State>, acts: seq<Action>, n: nat, ok: J.Json -> bool, e: string)
    requires Classifies(c) && IsRun(c, run, acts) && Submits(acts, ok) && n < |run|
    ensures RowsFrom(Rows(run[n], e), ok)
    ensures forall k | 0 < k < |Rows(run[n], e)| :: Rows(run[n], e)[k].cls == ClassAt(Schemas(Rows(run[n], e)), k)
  {
    var rows := Rows(run[n], e);
    RunsKeepChain(c, run, acts, n, e);
    RunsKeepFrom(c, run, acts, n, ok);
    forall k | 0 < k < |rows| ensures rows[k].cls == ClassAt(Schemas(rows), k) { StoredClass(c, rows, k); }
  }

  /** In every reachable state: if none of the stored classes of versions i+2..j+1 is
      BREAKING, every flat path of version i+1 is still in version j+1 with its type kept or
      widened, for payloads in which no object has keys `type` and `required` with an empty
      list or object under the latter. */
  lemma {:induction false} StoredClassesCompose(c: Config, run: seq<State>, acts: seq<Action>, n: nat, ok: J.Json -> bool,
                                                e: string, i: nat, j: nat)
    requires Classifies(c) && IsRun(c, run, acts) && Submits(acts, ok) && n < |run|
    requires forall v | ok(v) :: SaysRequired(Canonicalize(v))
    requires i <= j < |Rows(run[n], e)|
    requires forall k | i < k <= j :: Rows(run[n], e)[k].cls != Breaking
    ensures CompatibleSchemas(Rows(run[n], e)[i].schema, Rows(run[n], e)[j].schema)
  {
    var rows := Rows(run[n], e);
    CommittedChain(c, run, acts, n, ok, e);
    EverySchema(rows, ok, s => SaysRequired(s));
    CompatibilityComposes(Schemas(rows), i, j);
  }

  /** If all of them are SAFE, version i+1's flat schema is contained in version j+1's, for
      payloads whose schemas show no object with a key `type`. */
  lemma {:induction false} StoredSafetyComposes(c: Config, run: seq<State>, acts: seq<Action>, n: nat, ok: J.Json -> bool,
                                                e: string, i: nat, j: nat)
    requires Classifies(c) && IsRun(c, run, acts) && Submits(acts, ok) && n < |run|
    requires forall v | ok(v) :: PayloadSchema(Canonicalize(v))
    requires i <= j < |Rows(run[n], e)|
    requires forall k | i < k <= j :: Rows(run[n], e)[k].cls == Safe
    ensures Contained(Rows(run[n], e)[i].schema, Rows(run[n], e)[j].schema)
  {
    var rows := Rows(run[n], e);
    CommittedChain(c, run, acts, n, ok, e);
    EverySchema(rows, ok, s => PayloadSchema(s));
    forall v | ok(v) ensures CanonicalSchema(Canonicalize(v)) { CanonicalIsCanonical(v); }
    EverySchema(rows, ok, s => CanonicalSchema(s));
    SafetyComposes(Schemas(rows), i, j);
  }

  /** Payloads on which flattening loses nothing. */
  ghost predicate Faithful(v: J.Json) {
    J.Valid(v) && J.KeysSatisfy(v, CleanKey) && NestedNonempty(v)
  }

  /** A version with a predecessor differs from it, and its diff says so: no injectivity
      of the fingerprint is needed, since equal schemas have equal fingerprints. */
  lemma {:induction false} NewVersionsHaveADiff(c: Config, run: seq<State>, acts: seq<Action>, n: nat, ok: J.Json -> bool,
                                                e: string, k: nat)
    requires IsRun(c, run, acts) && Submits(acts, ok) && n < |run|
    requires forall v | ok(v) :: Faithful(v)
    requires 0 < k < |Rows(run[n], e)|
    ensures Diff(Rows(run[n], e)[k - 1].schema, Rows(run[n], e)[k].schema) != []
  {
    var rows := Rows(run[n], e);
    RunsKeepInv(c, run, acts, n);
    RunsKeepFrom(c, run, acts, n, ok);
    assert Chain(c, rows) && RowsFrom(rows, ok);
    assert RowOk(c, rows, k - 1) && RowOk(c, rows, k) && rows[k - 1].fp != rows[k].fp;
    assert IsSchemaOf(rows[k - 1].schema, ok) && IsSchemaOf(rows[k].schema, ok);
    var v :| ok(v) && rows[k - 1].schema == Canonicalize(v);
    var w :| ok(w) && rows[k].schema == Canonicalize(w);
    DiffEmptyIffEqual(v, w);
  }
}
