/** The registry as the service runs it: tables updated statement by statement. A
    call that nobody interrupts takes the tables from one reachable state of the
    protocol to another, so every protocol invariant holds between calls. */
module RegistryService {
  import opened Texts
  import opened Severities
  import opened Classifier
  import opened RegistryModel
  import opened RegistryChain
  import opened RegistryRuns
  import opened RegistryOutbox

  // ---- What one call does ----

  function NextVersion(c: Config, s: State, e: string, schema: Schema, cls: Severity): Row {
    var cur := FindCurrent(Rows(s, e));
    Row(s.nextId, if cur.None? then 1 else cur.value.version + 1, c.fpOf(schema), schema, cls,
        if cur.None? then None else Some(cur.value.id), true)
  }

  /** The class of a new version against the current one. */
  function NextClass(c: Config, s: State, e: string, schema: Schema): Severity {
    var cur := FindCurrent(Rows(s, e));
    if cur.None? then Safe else c.classOf(SchemaOf(Rows(s, e), cur.value.id), schema)
  }

  function NextAffected(c: Config, s: State, e: string, schema: Schema): seq<Subscription> {
    var row := NextVersion(c, s, e, schema, NextClass(c, s, e, schema));
    if row.prev.None? then [] else Affected(s.subs, e, row.version, row.cls)
  }

  /** The committed state after a call on `e` that nobody interrupts. */
  function Tracked(c: Config, s: State, e: string, schema: Schema): State {
    var rows := Rows(s, e);
    var found := FindFp(rows, c.fpOf(schema));
    if found.Some? then s.(calls := s.calls + [Call(e, found.value.fp, found.value.version, false)])
    else
      var row := NextVersion(c, s, e, schema, NextClass(c, s, e, schema));
      s.(tables := s.tables[e := Publish(rows, ClearCount(rows), row)],
         outbox := s.outbox + RowsTo(e, row.version, NextAffected(c, s, e, schema)),
         nextId := s.nextId + 1,
         calls := s.calls + [Call(e, row.fp, row.version, true)],
         seenAt := s.seenAt[(e, row.version) := if row.prev.None? then [] else s.subs])
  }

  // ---- It is a run of the protocol ----

  lemma {:induction false} ReachesFound(c: Config, s: State, e: string, schema: Schema)
    requires Reachable(c, s) && s.txs == map[] && FindFp(Rows(s, e), c.fpOf(schema)).Some?
    ensures Reachable(c, Tracked(c, s, e, schema))
  {
    var row := FindFp(Rows(s, e), c.fpOf(schema)).value;
    ReachesNext(c, s, Begin(0, 0, e, schema));
    var s1 := With(s, 0, Tx(0, e, schema, Looking, false, []));
    ReachesNext(c, s1, FastLookup(0));
    var s2 := With(s, 0, Tx(0, e, schema, Found(row), false, []));
    assert Do(c, s1, FastLookup(0)) == s2;
    ReachesNext(c, s2, Commit(0));
    assert Do(c, s2, Commit(0)) == Tracked(c, s, e, schema);
  }

  function Holder(e: string, schema: Schema, phase: Phase, unsent: seq<OutboxRow>): Tx {
    Tx(0, e, schema, phase, true, unsent)
  }

  lemma {:induction false} NextDoesNotClash(c: Config, s: State, e: string, fp: string)
    requires Reachable(c, s) && FindFp(Rows(s, e), fp).None?
    ensures !Clashes(Rows(s, e), VersionRead(FindCurrent(Rows(s, e))) + 1, fp)
  {
    ReachableInv(c, s);
    assert Chain(c, Rows(s, e));
    CurrentIsLast(c, Rows(s, e));
    ClashesIffStale(c, Rows(s, e), VersionRead(FindCurrent(Rows(s, e))), fp);
  }

  lemma {:induction false} ReachesInserted(c: Config, s: State, e: string, schema: Schema, row: Row)
    requires Reachable(c, s) && s.txs == map[] && FindFp(Rows(s, e), c.fpOf(schema)).None?
    requires row == NextVersion(c, s, e, schema, Safe)
    ensures Reachable(c, With(s, 0, Holder(e, schema, Inserted(row, ClearCount(Rows(s, e))), [])).(nextId := s.nextId + 1))
  {
    ReachesHolding(c, s, 0, 0, e, schema);
    ReachesCleared(c, s, 0, 0, e, schema);
    var s1 := With(s, 0, Holder(e, schema, Cleared(FindCurrent(Rows(s, e)), ClearCount(Rows(s, e))), []));
    assert NewRow(c, s1, s1.txs[0]) == row;
    NextDoesNotClash(c, s, e, row.fp);
    ReachesNext(c, s1, Insert(0));
    assert Do(c, s1, Insert(0)) == With(s, 0, Holder(e, schema, Inserted(row, ClearCount(Rows(s, e))), [])).(nextId := s.nextId + 1);
  }

  lemma {:induction false} ReachesFirst(c: Config, s: State, e: string, schema: Schema, row: Row, n: nat)
    requires s.txs == map[] && row.prev.None?
    requires Reachable(c, With(s, 0, Holder(e, schema, Inserted(row, n), [])))
    ensures Reachable(c, s.(tables := s.tables[e := Publish(Rows(s, e), n, row)],
                            calls := s.calls + [Call(e, row.fp, row.version, true)],
                            seenAt := s.seenAt[(e, row.version) := []]))
  {
    var s1 := With(s, 0, Holder(e, schema, Inserted(row, n), []));
    ReachesNext(c, s1, Commit(0));
    assert Drop(s1, 0).txs == s.txs;
    assert Rows(s1, e) == Rows(s, e);
  }

  /** The row a call reclassifies and announces. */
  lemma {:induction false} ReclassifyStep(c: Config, s: State, e: string, schema: Schema, row: Row, n: nat, cls: Severity)
    requires row.prev.Some? && cls == c.classOf(SchemaOf(Rows(s, e), row.prev.value), row.schema)
    ensures DoReclassify(c, With(s, 0, Holder(e, schema, Inserted(row, n), [])), 0)
      == With(s, 0, Holder(e, schema, Classified(row.(cls := cls), n), []))
  {
    assert Rows(With(s, 0, Holder(e, schema, Inserted(row, n), [])), e) == Rows(s, e);
  }

  lemma {:induction false} ReachesReclassified(c: Config, s: State, e: string, schema: Schema, row: Row, n: nat, cls: Severity)
    requires Reachable(c, With(s, 0, Holder(e, schema, Inserted(row, n), []))) && row.prev.Some?
    requires DoReclassify(c, With(s, 0, Holder(e, schema, Inserted(row, n), [])), 0)
      == With(s, 0, Holder(e, schema, Classified(row.(cls := cls), n), []))
    ensures Reachable(c, With(s, 0, Holder(e, schema, Classified(row.(cls := cls), n), [])))
  {
    ReachesNext(c, With(s, 0, Holder(e, schema, Inserted(row, n), [])), Reclassify(0));
  }

  lemma {:induction false} ReachesSelected(c: Config, s: State, e: string, schema: Schema, row: Row, n: nat)
    requires Reachable(c, With(s, 0, Holder(e, schema, Classified(row, n), [])))
    ensures Reachable(c, With(s, 0, Holder(e, schema, Enqueuing(row, n, s.subs, 0, false), [])))
  {
    var s1 := With(s, 0, Holder(e, schema, Classified(row, n), []));
    ReachesNext(c, s1, Select(0));
    assert Do(c, s1, Select(0)) == With(s, 0, Holder(e, schema, Enqueuing(row, n, s.subs, 0, false), []));
  }

  lemma {:induction false} ReachesEnqueued(c: Config, s: State, e: string, schema: Schema, row: Row, n: nat, done: nat)
    requires done <= |Affected(s.subs, e, row.version, row.cls)|
    requires Reachable(c, With(s, 0, Holder(e, schema, Enqueuing(row, n, s.subs, 0, false), [])))
    ensures Reachable(c, With(s, 0, Holder(e, schema, Enqueuing(row, n, s.subs, done, false),
                                           RowsTo(e, row.version, Affected(s.subs, e, row.version, row.cls)[..done]))))
    decreases done
  {
    var subs := Affected(s.subs, e, row.version, row.cls);
    if done > 0 {
      ReachesEnqueued(c, s, e, schema, row, n, done - 1);
      RowsToGrows(e, row.version, subs, done - 1);
      var s1 := With(s, 0, Holder(e, schema, Enqueuing(row, n, s.subs, done - 1, false), RowsTo(e, row.version, subs[..done - 1])));
      ReachesNext(c, s1, Enqueue(0));
      assert Do(c, s1, Enqueue(0)) == With(s, 0, Holder(e, schema, Enqueuing(row, n, s.subs, done, false), RowsTo(e, row.version, subs[..done])));
    }
  }

  lemma {:induction false} ReachesAnnounced(c: Config, s: State, e: string, schema: Schema, row: Row, n: nat)
    requires s.txs == map[] && Reachable(c, With(s, 0, Holder(e, schema, Enqueuing(row, n, s.subs, 0, false), [])))
    ensures Reachable(c, s.(tables := s.tables[e := Publish(Rows(s, e), n, row)],
                            outbox := s.outbox + RowsTo(e, row.version, Affected(s.subs, e, row.version, row.cls)),
                            calls := s.calls + [Call(e, row.fp, row.version, true)],
                            seenAt := s.seenAt[(e, row.version) := s.subs]))
  {
    var subs := Affected(s.subs, e, row.version, row.cls);
    ReachesEnqueued(c, s, e, schema, row, n, |subs|);
    assert subs[..|subs|] == subs;
    var s1 := With(s, 0, Holder(e, schema, Enqueuing(row, n, s.subs, |subs|, false), RowsTo(e, row.version, subs)));
    ReachesNext(c, s1, Commit(0));
    assert Drop(s1, 0).txs == s.txs;
    assert Rows(s1, e) == Rows(s, e);
  }

  /** A call that nobody interrupts is a run of the protocol. */
  lemma {:induction false} TrackedIsReachable(c: Config, s: State, e: string, schema: Schema)
    requires Reachable(c, s) && s.txs == map[]
    ensures Reachable(c, Tracked(c, s, e, schema)) && Tracked(c, s, e, schema).txs == map[]
  {
    if FindFp(Rows(s, e), c.fpOf(schema)).Some? {
      ReachesFound(c, s, e, schema);
    } else {
      var rows, row, cls := Rows(s, e), NextVersion(c, s, e, schema, Safe), NextClass(c, s, e, schema);
      var s1 := s.(nextId := s.nextId + 1);
      ReachesInserted(c, s, e, schema, row);
      assert With(s, 0, Holder(e, schema, Inserted(row, ClearCount(rows)), [])).(nextId := s.nextId + 1)
          == With(s1, 0, Holder(e, schema, Inserted(row, ClearCount(rows)), []));
      assert Rows(s1, e) == rows;
      if row.prev.None? {
        ReachesFirst(c, s1, e, schema, row, ClearCount(rows));
        assert s.outbox + [] == s.outbox;
      } else {
        ReclassifyStep(c, s1, e, schema, row, ClearCount(rows), cls);
        ReachesReclassified(c, s1, e, schema, row, ClearCount(rows), cls);
        ReachesSelected(c, s1, e, schema, row.(cls := cls), ClearCount(rows));
        ReachesAnnounced(c, s1, e, schema, row.(cls := cls), ClearCount(rows));
      }
    }
  }

  // ---- The statements ----

  /** `UPDATE ... SET is_current = FALSE`. */
  function ClearFlags(rows: seq<Row>): seq<Row> {
    seq(|rows|, i requires 0 <= i < |rows| => rows[i].(current := false))
  }

  /** `UPDATE ... SET compatibility_classification = cls WHERE id = id`. */
  function SetClass(rows: seq<Row>, id: nat, cls: Severity): seq<Row> {
    seq(|rows|, i requires 0 <= i < |rows| => if rows[i].id == id then rows[i].(cls := cls) else rows[i])
  }

  /** The rows the subscription query returns, before ranks are compared. */
  predicate Selected(sub: Subscription, e: string, v: nat) {
    sub.endpoint == e && sub.active && (sub.fromVersion.None? || sub.fromVersion.value <= v)
  }

  function Query(subs: seq<Subscription>, e: string, v: nat): seq<Subscription> {
    if subs == [] then [] else (if Selected(subs[0], e, v) then [subs[0]] else []) + Query(subs[1..], e, v)
  }

  function AtLeast(subs: seq<Subscription>, cls: Severity): seq<Subscription> {
    if subs == [] then []
    else (if Rank(cls) >= RankOfName(subs[0].threshold) then [subs[0]] else []) + AtLeast(subs[1..], cls)
  }

  lemma {:induction false} QueryThenRank(subs: seq<Subscription>, e: string, v: nat, cls: Severity)
    ensures AtLeast(Query(subs, e, v), cls) == Affected(subs, e, v, cls)
  {
    if subs != [] {
      QueryThenRank(subs[1..], e, v, cls);
      var rest := Query(subs[1..], e, v);
      assert [subs[0]] + rest != [] && ([subs[0]] + rest)[1..] == rest && [] + rest == rest;
    }
  }

  lemma {:induction false} AtLeastStep(out: seq<Subscription>, subs: seq<Subscription>, i: nat, cls: Severity)
    requires i < |subs|
    ensures out + AtLeast(subs[i..], cls) ==
      (if Rank(cls) >= RankOfName(subs[i].threshold) then out + [subs[i]] else out) + AtLeast(subs[i + 1..], cls)
  {
    assert subs[i..][0] == subs[i] && subs[i..][1..] == subs[i + 1..];
    assert out + ([subs[i]] + AtLeast(subs[i + 1..], cls)) == (out + [subs[i]]) + AtLeast(subs[i + 1..], cls);
  }

  /** The loop over the queried rows keeps those whose threshold the class reaches. */
  method KeepAtLeast(rows: seq<Subscription>, cls: Severity) returns (out: seq<Subscription>)
    ensures out == AtLeast(rows, cls)
  {
    out := [];
    for i := 0 to |rows|
      invariant out + AtLeast(rows[i..], cls) == AtLeast(rows, cls)
    {
      AtLeastStep(out, rows, i, cls);
      if Rank(cls) >= RankOfName(rows[i].threshold) {
        out := out + [rows[i]];
      }
    }
  }

  /** The affected subscriptions of an endpoint, version and class. */
  method SelectAffected(subs: seq<Subscription>, e: string, v: nat, cls: Severity) returns (out: seq<Subscription>)
    ensures out == Affected(subs, e, v, cls)
  {
    out := KeepAtLeast(Query(subs, e, v), cls);
    QueryThenRank(subs, e, v, cls);
  }

  // ---- The service ----

  lemma {:induction false} ClearThenInsert(rows: seq<Row>, row: Row)
    ensures (if FindCurrent(rows).Some? then ClearFlags(rows) else rows) + [row] == Publish(rows, ClearCount(rows), row)
  {
    var l, r := (if FindCurrent(rows).Some? then ClearFlags(rows) else rows) + [row], Publish(rows, ClearCount(rows), row);
    assert forall i | 0 <= i < |l| :: l[i] == r[i];
  }

  lemma {:induction false} SetClassOfInserted(rows: seq<Row>, n: nat, row: Row, nextId: nat, cls: Severity)
    requires IdsBelow(rows, nextId) && row.id == nextId
    ensures SetClass(Publish(rows, n, row), row.id, cls) == Publish(rows, n, row.(cls := cls))
  {
  }

  lemma {:induction false} ReachableTable(c: Config, s: State, e: string)
    requires Reachable(c, s)
    ensures Distinct(Rows(s, e)) && IdsBelow(Rows(s, e), s.nextId) && ClearCount(Rows(s, e)) == |Rows(s, e)|
    ensures FindCurrent(Rows(s, e)) == if Rows(s, e) == [] then None else Some(Rows(s, e)[|Rows(s, e)| - 1])
  {
    ReachableInv(c, s);
    assert Chain(c, Rows(s, e)) && IdsBelow(Rows(s, e), s.nextId);
    CurrentIsLast(c, Rows(s, e));
  }

  lemma {:induction false} PriorIsUntouched(rows: seq<Row>, nextId: nat, row: Row)
    requires Distinct(rows) && rows != [] && IdsBelow(rows, nextId) && row.id == nextId
    ensures var id := rows[|rows| - 1].id; SchemaOf(Publish(rows, |rows|, row), id) == SchemaOf(rows, id)
  {
    var r := Publish(rows, |rows|, row);
    IdsStayApart(rows, row);
    SchemaOfId(rows, |rows| - 1);
    SchemaOfId(r, |rows| - 1);
  }

  ghost predicate IdsApart(rows: seq<Row>) { forall i, j | 0 <= i < j < |rows| :: rows[i].id != rows[j].id }

  lemma {:induction false} IdsStayApart(rows: seq<Row>, row: Row)
    requires Distinct(rows) && IdsBelow(rows, row.id)
    ensures IdsApart(rows) && IdsApart(Publish(rows, |rows|, row))
  {
    var r := Publish(rows, |rows|, row);
    forall i, j | 0 <= i < j < |r| ensures r[i].id != r[j].id {
      assert r[i].id == rows[i].id;
    }
  }

  lemma {:induction false} SchemaOfId(rows: seq<Row>, i: nat)
    requires IdsApart(rows) && i < |rows|
    ensures SchemaOf(rows, rows[i].id) == rows[i].schema
  {
    if i > 0 {
      assert rows[0].id != rows[i].id;
      SchemaOfId(rows[1..], i - 1);
    }
  }

  /** Reading the predecessor and storing the class after the insert gives the new
      version its class against the version that was current before. */
  lemma {:induction false} PriorAfterInsert(c: Config, s: State, e: string, row: Row)
    requires Reachable(c, s) && FindCurrent(Rows(s, e)).Some? && row.id == s.nextId
    ensures var rows, id := Rows(s, e), FindCurrent(Rows(s, e)).value.id;
      SchemaOf(Publish(rows, ClearCount(rows), row), id) == SchemaOf(rows, id)
  {
    ReachableTable(c, s, e);
    PriorIsUntouched(Rows(s, e), s.nextId, row);
  }

  lemma {:induction false} NextClassIs(c: Config, s: State, e: string, schema: Schema, row: Row)
    requires Reachable(c, s) && row == NextVersion(c, s, e, schema, Safe) && row.prev.Some?
    ensures NextClass(c, s, e, schema) == c.classOf(SchemaOf(Publish(Rows(s, e), ClearCount(Rows(s, e)), row), row.prev.value), schema)
  {
    PriorAfterInsert(c, s, e, row);
  }

  lemma {:induction false} ClassAfterInsert(c: Config, s: State, e: string, row: Row, cls: Severity)
    requires Reachable(c, s) && row.id == s.nextId
    ensures var rows := Rows(s, e);
      SetClass(Publish(rows, ClearCount(rows), row), row.id, cls) == Publish(rows, ClearCount(rows), row.(cls := cls))
  {
    ReachableTable(c, s, e);
    SetClassOfInserted(Rows(s, e), |Rows(s, e)|, row, s.nextId, cls);
  }

  lemma {:induction false} TrackedInserts(c: Config, s: State, e: string, schema: Schema, s': State)
    requires FindFp(Rows(s, e), c.fpOf(schema)).None? && s'.txs == s.txs && s'.subs == s.subs && s'.nextId == s.nextId + 1
    requires var row := NextVersion(c, s, e, schema, NextClass(c, s, e, schema));
      && s'.tables == s.tables[e := Publish(Rows(s, e), ClearCount(Rows(s, e)), row)]
      && (s'.outbox == s.outbox + RowsTo(e, row.version, NextAffected(c, s, e, schema)) || (row.prev.None? && s'.outbox == s.outbox))
      && s'.calls == s.calls + [Call(e, row.fp, row.version, true)]
      && s'.seenAt == s.seenAt[(e, row.version) := if row.prev.None? then [] else s.subs]
    ensures s' == Tracked(c, s, e, schema)
  {
    assert s.outbox + [] == s.outbox;
  }

  /** The answer `row` is the table's row `i`, its version `i + 1`, but for the class, which
      the answer has beside it. */
  predicate AnsweredBy(rows: seq<Row>, i: int, row: Row, fp: string) {
    && 0 <= i < |rows| && rows[i].fp == fp
    && row.version == rows[i].version == i + 1 && row.(cls := rows[i].cls) == rows[i]
  }

  /** The version a call is answered with: the stored one with the fingerprint, or the one
      after the last. */
  lemma {:induction false} AnswerIsStored(c: Config, s: State, e: string, schema: Schema)
    requires Reachable(c, s)
    ensures var rows, found := Rows(s, e), FindFp(Rows(s, e), c.fpOf(schema));
      if found.Some? then exists i :: AnsweredBy(rows, i, found.value, c.fpOf(schema))
      else
        var row := NextVersion(c, s, e, schema, NextClass(c, s, e, schema));
        AnsweredBy(Publish(rows, ClearCount(rows), row), |rows|, row.(cls := Safe), c.fpOf(schema))
  {
    var rows := Rows(s, e);
    ReachableInv(c, s);
    assert Chain(c, rows);
    FindFpSound(rows, c.fpOf(schema));
    if FindFp(rows, c.fpOf(schema)).Some? {
      var i :| 0 <= i < |rows| && rows[i] == FindFp(rows, c.fpOf(schema)).value && rows[i].fp == c.fpOf(schema);
      assert RowOk(c, rows, i);
      assert AnsweredBy(rows, i, rows[i], c.fpOf(schema));
    } else {
      ReachableTable(c, s, e);
      if rows != [] { assert RowOk(c, rows, |rows| - 1); }
    }
  }

  class Registry {
    const c: Config
    var tables: map<string, seq<Row>>
    var subs: seq<Subscription>
    var outbox: seq<OutboxRow>
    var nextId: nat
    ghost var calls: seq<Call>
    ghost var seenAt: map<(string, nat), seq<Subscription>>

    ghost function Abs(): State
      reads this
    {
      State(tables, subs, outbox, map[], nextId, calls, seenAt)
    }

    /** Between calls, the tables are a reachable state of the protocol. */
    ghost predicate Valid()
      reads this
    {
      Reachable(c, Abs())
    }

    constructor (c: Config)
      ensures Valid() && this.c == c && Abs() == EMPTY
    {
      this.c := c;
      tables, subs, outbox, nextId := map[], [], [], 0;
      calls, seenAt := [], map[];
      new;
      StartIsReachable(c);
    }

    function TableOf(e: string): seq<Row>
      reads this
    {
      if e in tables then tables[e] else []
    }

    /** Under the lock: looks again, and makes the next version current if there is none. */
    method InsertUnderLock(e: string, schema: Schema, fp: string) returns (row: Row, inserted: bool)
      requires fp == c.fpOf(schema)
      modifies this`tables, this`nextId
      ensures inserted <==> FindFp(old(TableOf(e)), fp).None?
      ensures !inserted ==> Some(row) == FindFp(old(TableOf(e)), fp) && tables == old(tables) && nextId == old(nextId)
      ensures inserted ==>
        && row == NextVersion(c, old(Abs()), e, schema, Safe) && nextId == old(nextId) + 1
        && tables == old(tables)[e := Publish(old(TableOf(e)), ClearCount(old(TableOf(e))), row)]
    {
      var current := FindCurrent(TableOf(e));
      var existing := FindFp(TableOf(e), fp);
      if existing.Some? { return existing.value, false; }
      var version := if current.None? then 1 else current.value.version + 1;
      var previous := if current.None? then None else Some(current.value.id);
      row := Row(nextId, version, fp, schema, Safe, previous, true);
      ClearThenInsert(TableOf(e), row);
      if current.Some? {
        tables := tables[e := ClearFlags(TableOf(e))];
      }
      tables := tables[e := TableOf(e) + [row]];
      nextId := nextId + 1;
      inserted := true;
    }

    /** Finds the version with the fingerprint without the lock, or goes on under it. */
    method UpsertSchemaVersion(e: string, schema: Schema, fp: string) returns (row: Row, inserted: bool)
      requires fp == c.fpOf(schema)
      modifies this`tables, this`nextId
      ensures inserted <==> FindFp(old(TableOf(e)), fp).None?
      ensures !inserted ==> Some(row) == FindFp(old(TableOf(e)), fp) && tables == old(tables) && nextId == old(nextId)
      ensures inserted ==>
        && row == NextVersion(c, old(Abs()), e, schema, Safe) && nextId == old(nextId) + 1
        && tables == old(tables)[e := Publish(old(TableOf(e)), ClearCount(old(TableOf(e))), row)]
    {
      var fast := FindFp(TableOf(e), fp);
      if fast.Some? { return fast.value, false; }
      row, inserted := InsertUnderLock(e, schema, fp);
    }

    /** Reads the predecessor by its id and stores the class of the difference. */
    method Reclassify(e: string, row: Row) returns (cls: Severity)
      requires row.prev.Some?
      modifies this`tables
      ensures cls == c.classOf(SchemaOf(old(TableOf(e)), row.prev.value), row.schema)
      ensures tables == old(tables)[e := SetClass(old(TableOf(e)), row.id, cls)]
    {
      var prior := SchemaOf(TableOf(e), row.prev.value);
      cls := c.classOf(prior, row.schema);
      tables := tables[e := SetClass(TableOf(e), row.id, cls)];
    }

    /** For the version just inserted after the tables `s`, that is its class against the
        version that was current before, and no other row changes. */
    method ReclassifyInserted(e: string, schema: Schema, row: Row, ghost s: State) returns (cls: Severity)
      requires Reachable(c, s) && row == NextVersion(c, s, e, schema, Safe) && row.prev.Some?
      requires tables == s.tables[e := Publish(Rows(s, e), ClearCount(Rows(s, e)), row)]
      modifies this`tables
      ensures cls == NextClass(c, s, e, schema)
      ensures tables == s.tables[e := Publish(Rows(s, e), ClearCount(Rows(s, e)), row.(cls := cls))]
    {
      NextClassIs(c, s, e, schema, row);
      cls := Reclassify(e, row);
      ClassAfterInsert(c, s, e, row, cls);
    }

    /** Writes one outbox row for each affected subscription. */
    method EnqueueWebhooks(e: string, v: nat, cls: Severity) returns (count: nat)
      modifies this`outbox
      ensures outbox == old(outbox) + RowsTo(e, v, Affected(subs, e, v, cls)) && count == |Affected(subs, e, v, cls)|
    {
      var affected := SelectAffected(subs, e, v, cls);
      for i := 0 to |affected|
        invariant outbox == old(outbox) + RowsTo(e, v, affected[..i])
      {
        RowsToGrows(e, v, affected, i);
        outbox := outbox + [OutboxRow(e, v, affected[i].id)];
      }
      assert affected[..|affected|] == affected;
      count := |affected|;
    }

    /** Classifies the version just inserted after the tables `s` and announces it. */
    method ClassifyAndAnnounce(e: string, schema: Schema, row: Row, ghost s: State) returns (cls: Severity, affected: nat)
      requires Reachable(c, s) && row == NextVersion(c, s, e, schema, Safe) && row.prev.Some?
      requires tables == s.tables[e := Publish(Rows(s, e), ClearCount(Rows(s, e)), row)]
      requires subs == s.subs && outbox == s.outbox
      modifies this`tables, this`outbox
      ensures cls == NextClass(c, s, e, schema) && affected == |NextAffected(c, s, e, schema)|
      ensures tables == s.tables[e := Publish(Rows(s, e), ClearCount(Rows(s, e)), row.(cls := cls))]
      ensures outbox == s.outbox + RowsTo(e, row.version, NextAffected(c, s, e, schema))
    {
      cls := ReclassifyInserted(e, schema, row, s);
      affected := EnqueueWebhooks(e, row.version, cls);
    }

    /** One call: the version, whether it is new, its class in the response, and how
        many subscriptions hear of it. The tables end as the protocol says, and every
        invariant of the protocol holds again. */
    method TrackContract(e: string, schema: Schema) returns (row: Row, inserted: bool, cls: Severity, affected: nat)
      requires Valid() && !c.inline
      modifies this
      ensures Valid() && Abs() == Tracked(c, old(Abs()), e, schema)
      ensures inserted <==> FindFp(old(TableOf(e)), c.fpOf(schema)).None?
      ensures cls == if inserted then NextClass(c, old(Abs()), e, schema) else Safe
      ensures affected == if inserted then |NextAffected(c, old(Abs()), e, schema)| else 0
      ensures exists i :: AnsweredBy(TableOf(e), i, row, c.fpOf(schema))
      ensures inserted ==> |TableOf(e)| == |old(TableOf(e))| + 1 && AnsweredBy(TableOf(e), |old(TableOf(e))|, row, c.fpOf(schema))
      ensures !inserted ==> tables == old(tables)
    {
      ghost var s := Abs();
      TrackedIsReachable(c, s, e, schema);
      FindFpSound(Rows(s, e), c.fpOf(schema));
      AnswerIsStored(c, s, e, schema);
      row, inserted := UpsertSchemaVersion(e, schema, c.fpOf(schema));
      cls, affected := Safe, 0;
      if inserted && row.prev.Some? {
        cls, affected := ClassifyAndAnnounce(e, schema, row, s);
      }
      calls := calls + [Call(e, c.fpOf(schema), row.version, inserted)];
      if inserted {
        seenAt := seenAt[(e, row.version) := if row.prev.None? then [] else subs];
        TrackedInserts(c, s, e, schema, Abs());
        assert AnsweredBy(TableOf(e), |Rows(s, e)|, row, c.fpOf(schema));
      } else {
        assert row == FindFp(Rows(s, e), c.fpOf(schema)).value && TableOf(e) == Rows(s, e);
        ghost var i :| AnsweredBy(Rows(s, e), i, row, c.fpOf(schema));
        assert AnsweredBy(TableOf(e), i, row, c.fpOf(schema));
      }
    }
  }
}
