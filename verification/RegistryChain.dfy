/** What every interleaving of track transactions keeps, whatever lock ids the
    processes use: each endpoint's committed versions form one chain. */
module RegistryChain {
  import opened Texts
  import opened Severities
  import opened Classifier
  import opened RegistryModel

  /** Row `k` is version k+1, points to row k-1, is current exactly when last, and
      carries its schema's fingerprint and its class against its predecessor. */
  ghost predicate RowOk(c: Config, rows: seq<Row>, k: nat)
    requires k < |rows|
  {
    && rows[k].version == k + 1
    && (rows[k].current <==> k == |rows| - 1)
    && rows[k].prev == (if k == 0 then None else Some(rows[k - 1].id))
    && rows[k].fp == c.fpOf(rows[k].schema)
    && rows[k].cls == (if k == 0 then Safe else c.classOf(rows[k - 1].schema, rows[k].schema))
  }

  ghost predicate Distinct(rows: seq<Row>) {
    forall j, k | 0 <= j < k < |rows| :: rows[j].fp != rows[k].fp && rows[j].id != rows[k].id
  }

  ghost predicate Chain(c: Config, rows: seq<Row>) {
    && (forall k | 0 <= k < |rows| :: RowOk(c, rows, k))
    && Distinct(rows)
  }

  /** The same record up to the flag an UPDATE may clear. */
  predicate SameRecord(a: Row, b: Row) { a.(current := b.current) == b }

  /** A record read earlier is still in the table, at its version. */
  predicate Known(rows: seq<Row>, row: Row) {
    1 <= row.version <= |rows| && SameRecord(row, rows[row.version - 1])
  }

  predicate CurOk(rows: seq<Row>, cur: Option<Row>) { cur.Some? ==> Known(rows, cur.value) }

  predicate ClearedOk(rows: seq<Row>, cur: Option<Row>, cleared: nat) {
    && CurOk(rows, cur) && cleared <= |rows|
    && (if cur.Some? then cur.value.version <= cleared else cleared == 0)
  }

  /** A private row that would extend the chain by one. */
  ghost predicate PendingOk(c: Config, rows: seq<Row>, nextId: nat, row: Row, cleared: nat) {
    && row.version == |rows| + 1 && cleared == |rows|
    && row.prev == (if rows == [] then None else Some(rows[|rows| - 1].id))
    && row.fp == c.fpOf(row.schema) && row.current && row.id < nextId
    && forall i | 0 <= i < |rows| :: rows[i].fp != row.fp && rows[i].id != row.id
  }

  ghost predicate ClassOk(c: Config, rows: seq<Row>, row: Row) {
    rows != [] && row.cls == c.classOf(rows[|rows| - 1].schema, row.schema)
  }

  ghost predicate TxOk(c: Config, rows: seq<Row>, nextId: nat, tx: Tx) {
    match tx.phase
    case Looking => true
    case Waiting => true
    case Holding => true
    case SawCurrent(cur) => CurOk(rows, cur)
    case Missed(cur) => CurOk(rows, cur)
    case Cleared(cur, cleared) => ClearedOk(rows, cur, cleared)
    case Inserted(row, cleared) => PendingOk(c, rows, nextId, row, cleared) && row.cls == Safe
    case Classified(row, cleared) => PendingOk(c, rows, nextId, row, cleared) && ClassOk(c, rows, row)
    case Enqueuing(row, cleared, _, _, published) =>
      if published then Known(rows, row) && row.version > 1
      else PendingOk(c, rows, nextId, row, cleared) && ClassOk(c, rows, row)
    case Found(row) => Known(rows, row) && row.fp == c.fpOf(tx.schema)
  }

  ghost predicate OnePending(s: State) {
    forall t, u | t in s.txs && u in s.txs && t != u && Pending(s.txs[t]) && Pending(s.txs[u]) ::
      s.txs[t].endpoint != s.txs[u].endpoint
  }

  ghost predicate IdsBelow(rows: seq<Row>, n: nat) { forall k | 0 <= k < |rows| :: rows[k].id < n }

  ghost predicate TablesOk(c: Config, s: State) {
    forall e :: Chain(c, Rows(s, e)) && IdsBelow(Rows(s, e), s.nextId)
  }

  ghost predicate TxsOk(c: Config, s: State) {
    forall t | t in s.txs :: TxOk(c, Rows(s, s.txs[t].endpoint), s.nextId, s.txs[t])
  }

  ghost predicate Inv(c: Config, s: State) { TablesOk(c, s) && TxsOk(c, s) && OnePending(s) }

  // ---- Queries on a chain ----

  lemma {:induction false} FindFpSound(rows: seq<Row>, fp: string)
    ensures FindFp(rows, fp).Some? ==> exists i | 0 <= i < |rows| :: rows[i] == FindFp(rows, fp).value && rows[i].fp == fp
    ensures FindFp(rows, fp).None? ==> forall i | 0 <= i < |rows| :: rows[i].fp != fp
  {
    if rows != [] && rows[0].fp != fp {
      FindFpSound(rows[1..], fp);
      if FindFp(rows, fp).Some? {
        var i :| 0 <= i < |rows[1..]| && rows[1..][i] == FindFp(rows, fp).value && rows[1..][i].fp == fp;
        assert rows[i + 1] == FindFp(rows, fp).value;
      }
    }
  }

  lemma {:induction false} FindCurrentSound(rows: seq<Row>)
    ensures FindCurrent(rows).Some? ==> exists i | 0 <= i < |rows| :: rows[i] == FindCurrent(rows).value && rows[i].current
    ensures FindCurrent(rows).None? ==> forall i | 0 <= i < |rows| :: !rows[i].current
  {
    if rows != [] {
      FindCurrentSound(rows[1..]);
      if FindCurrent(rows[1..]).Some? {
        var i :| 0 <= i < |rows[1..]| && rows[1..][i] == FindCurrent(rows[1..]).value && rows[1..][i].current;
        assert rows[i + 1] == FindCurrent(rows[1..]).value;
      }
    }
  }

  lemma {:induction false} MemberKnown(c: Config, rows: seq<Row>, i: nat)
    requires Chain(c, rows) && i < |rows|
    ensures Known(rows, rows[i])
  {
    assert RowOk(c, rows, i);
  }

  lemma {:induction false} FoundKnown(c: Config, rows: seq<Row>, fp: string)
    requires Chain(c, rows)
    ensures FindFp(rows, fp).Some? ==> Known(rows, FindFp(rows, fp).value) && FindFp(rows, fp).value.fp == fp
  {
    FindFpSound(rows, fp);
    if FindFp(rows, fp).Some? {
      var i :| 0 <= i < |rows| && rows[i] == FindFp(rows, fp).value && rows[i].fp == fp;
      MemberKnown(c, rows, i);
    }
  }

  lemma {:induction false} CurrentKnown(c: Config, rows: seq<Row>)
    requires Chain(c, rows)
    ensures CurOk(rows, FindCurrent(rows))
  {
    FindCurrentSound(rows);
    if FindCurrent(rows).Some? {
      var i :| 0 <= i < |rows| && rows[i] == FindCurrent(rows).value;
      MemberKnown(c, rows, i);
    }
  }

  lemma {:induction false} SchemaOfMember(rows: seq<Row>, i: nat)
    requires Distinct(rows) && i < |rows|
    ensures SchemaOf(rows, rows[i].id) == rows[i].schema
  {
    if i > 0 {
      assert rows[0].id != rows[i].id;
      SchemaOfMember(rows[1..], i - 1);
    }
  }

  /** The highest version a transaction knew of when it looked. */
  function VersionRead(cur: Option<Row>): nat { if cur.None? then 0 else cur.value.version }

  lemma {:induction false} PlaceInChain(c: Config, rows: seq<Row>, i: nat)
    requires Chain(c, rows) && i < |rows|
    ensures rows[i].version == i + 1 && (rows[i].current <==> i == |rows| - 1)
  {
    assert RowOk(c, rows, i);
  }

  lemma {:induction false} CurrentIsLast(c: Config, rows: seq<Row>)
    requires Chain(c, rows)
    ensures FindCurrent(rows) == if rows == [] then None else Some(rows[|rows| - 1])
    ensures VersionRead(FindCurrent(rows)) == |rows|
  {
    FindCurrentSound(rows);
    if FindCurrent(rows).Some? {
      var i :| 0 <= i < |rows| && rows[i] == FindCurrent(rows).value && rows[i].current;
      PlaceInChain(c, rows, i);
    } else if rows != [] {
      PlaceInChain(c, rows, |rows| - 1);
    }
  }

  // ---- Publishing ----

  lemma {:induction false} PublishKeepsRow(c: Config, rows: seq<Row>, row: Row, k: nat)
    requires Chain(c, rows) && k < |rows|
    ensures RowOk(c, Publish(rows, |rows|, row), k)
  {
    assert RowOk(c, rows, k);
  }

  lemma {:induction false} PublishAddsRow(c: Config, rows: seq<Row>, nextId: nat, row: Row)
    requires PendingOk(c, rows, nextId, row, |rows|) && (if rows == [] then row.cls == Safe else ClassOk(c, rows, row))
    ensures RowOk(c, Publish(rows, |rows|, row), |rows|)
  {
    var r := Publish(rows, |rows|, row);
    if rows != [] {
      var last := |rows| - 1;
      assert r[last].id == rows[last].id && r[last].schema == rows[last].schema;
    }
  }

  lemma {:induction false} PublishKeepsDistinct(c: Config, rows: seq<Row>, nextId: nat, row: Row)
    requires Distinct(rows) && PendingOk(c, rows, nextId, row, |rows|)
    ensures Distinct(Publish(rows, |rows|, row))
  {
    var r := Publish(rows, |rows|, row);
    forall j, k | 0 <= j < k < |r| ensures r[j].fp != r[k].fp && r[j].id != r[k].id {
      assert r[j].fp == rows[j].fp && r[j].id == rows[j].id;
    }
  }

  lemma {:induction false} PublishKeepsIds(rows: seq<Row>, nextId: nat, row: Row)
    requires IdsBelow(rows, nextId) && row.id < nextId
    ensures IdsBelow(Publish(rows, |rows|, row), nextId)
  {
  }

  lemma {:induction false} RowsOkChain(c: Config, rows: seq<Row>)
    requires Distinct(rows) && forall k | 0 <= k < |rows| :: RowOk(c, rows, k)
    ensures Chain(c, rows)
  {
  }

  /** Committing a pending row extends the chain by one. */
  lemma {:induction false} PublishExtends(c: Config, rows: seq<Row>, nextId: nat, row: Row)
    requires Chain(c, rows) && PendingOk(c, rows, nextId, row, |rows|)
    requires if rows == [] then row.cls == Safe else ClassOk(c, rows, row)
    ensures Chain(c, Publish(rows, |rows|, row))
  {
    var r := Publish(rows, |rows|, row);
    PublishAddsRow(c, rows, nextId, row);
    PublishKeepsDistinct(c, rows, nextId, row);
    forall k | 0 <= k < |r| ensures RowOk(c, r, k) {
      if k < |rows| { PublishKeepsRow(c, rows, row, k); }
    }
    RowsOkChain(c, r);
  }

  lemma {:induction false} PublishKeepsKnown(rows: seq<Row>, row: Row, known: Row)
    requires Known(rows, known)
    ensures Known(Publish(rows, |rows|, row), known)
  {
  }

  /** A transaction that has nothing pending still holds good after another's commit. */
  lemma {:induction false} PublishKeepsTx(c: Config, rows: seq<Row>, nextId: nat, row: Row, tx: Tx)
    requires TxOk(c, rows, nextId, tx) && !Pending(tx)
    ensures TxOk(c, Publish(rows, |rows|, row), nextId, tx)
  {
    match tx.phase
    case SawCurrent(cur) => if cur.Some? { PublishKeepsKnown(rows, row, cur.value); }
    case Missed(cur) => if cur.Some? { PublishKeepsKnown(rows, row, cur.value); }
    case Cleared(cur, _) => if cur.Some? { PublishKeepsKnown(rows, row, cur.value); }
    case Enqueuing(r, _, _, _, _) => PublishKeepsKnown(rows, row, r);
    case Found(r) => PublishKeepsKnown(rows, row, r);
    case _ =>
  }

  // ---- Steps that change one transaction only ----

  ghost predicate LocalTo(s: State, s': State, t: nat) {
    && s'.tables == s.tables && s'.nextId >= s.nextId
    && forall u | u != t :: (u in s'.txs <==> u in s.txs) && (u in s.txs ==> s'.txs[u] == s.txs[u])
  }

  lemma {:induction false} TxOkRaises(c: Config, rows: seq<Row>, n: nat, m: nat, tx: Tx)
    requires TxOk(c, rows, n, tx) && n <= m
    ensures TxOk(c, rows, m, tx)
  {
  }

  /** Transaction `t`, in its new state, is alone in having a row pending at its endpoint. */
  ghost predicate AlonePending(s: State, t: nat, tx: Tx) {
    Pending(tx) ==> forall u | u in s.txs && u != t && Pending(s.txs[u]) :: s.txs[u].endpoint != tx.endpoint
  }

  lemma {:induction false} LocalKeepsInv(c: Config, s: State, s': State, t: nat)
    requires Inv(c, s) && LocalTo(s, s', t)
    requires t in s'.txs ==> TxOk(c, Rows(s, s'.txs[t].endpoint), s'.nextId, s'.txs[t]) && AlonePending(s, t, s'.txs[t])
    ensures Inv(c, s')
  {
    forall e ensures Rows(s', e) == Rows(s, e) {}
    forall e ensures Chain(c, Rows(s', e)) && IdsBelow(Rows(s', e), s'.nextId) {
      assert Chain(c, Rows(s, e)) && IdsBelow(Rows(s, e), s.nextId);
    }
    forall u | u in s'.txs ensures TxOk(c, Rows(s', s'.txs[u].endpoint), s'.nextId, s'.txs[u]) {
      if u != t {
        TxOkRaises(c, Rows(s, s.txs[u].endpoint), s.nextId, s'.nextId, s.txs[u]);
      }
    }
  }

  lemma {:induction false} StaysAlone(s: State, t: nat, tx: Tx)
    requires OnePending(s) && t in s.txs && Pending(s.txs[t]) && tx.endpoint == s.txs[t].endpoint
    ensures AlonePending(s, t, tx)
  {
  }

  /** A version a transaction computed that is not in the table is the next one. */
  lemma {:induction false} UnusedVersionIsNext(c: Config, rows: seq<Row>, v: nat)
    requires Chain(c, rows) && 1 <= v <= |rows| + 1
    requires forall i | 0 <= i < |rows| :: rows[i].version != v
    ensures v == |rows| + 1
  {
    assert v <= |rows| ==> RowOk(c, rows, v - 1);
  }

  /** An insert that meets no UNIQUE clash, whatever its transaction read, extends the chain. */
  lemma {:induction false} InsertExtends(c: Config, rows: seq<Row>, s: State, tx: Tx)
    requires tx.phase.Cleared? && ClearedOk(rows, tx.phase.cur, tx.phase.cleared)
    requires Chain(c, rows) && IdsBelow(rows, s.nextId)
    requires !Clashes(rows, NewRow(c, s, tx).version, NewRow(c, s, tx).fp)
    ensures PendingOk(c, rows, s.nextId + 1, NewRow(c, s, tx), tx.phase.cleared)
  {
    UnusedVersionIsNext(c, rows, NewRow(c, s, tx).version);
  }

  /** Two uncommitted rows at one endpoint would have the same version. */
  lemma {:induction false} PendingVersion(c: Config, rows: seq<Row>, nextId: nat, tx: Tx)
    requires TxOk(c, rows, nextId, tx) && Pending(tx)
    ensures PendingRow(tx).version == |rows| + 1
  {
  }

  lemma {:induction false} InsertIsAlone(c: Config, s: State, t: nat, row: Row)
    requires TxsOk(c, s) && t in s.txs && s.txs[t].phase.Cleared? && !InsertBlocked(c, s, t)
    requires row == NewRow(c, s, s.txs[t]) && row.version == |Rows(s, s.txs[t].endpoint)| + 1
    ensures forall u | u in s.txs && u != t && Pending(s.txs[u]) :: s.txs[u].endpoint != s.txs[t].endpoint
  {
    forall u | u in s.txs && u != t && Pending(s.txs[u]) ensures s.txs[u].endpoint != s.txs[t].endpoint {
      PendingVersion(c, Rows(s, s.txs[u].endpoint), s.nextId, s.txs[u]);
    }
  }

  lemma {:induction false} InsertKeeps(c: Config, s: State, t: nat)
    requires Inv(c, s) && t in s.txs && s.txs[t].phase.Cleared? && !InsertBlocked(c, s, t)
    ensures Inv(c, DoInsert(c, s, t))
  {
    var tx := s.txs[t];
    var rows, row := Rows(s, tx.endpoint), NewRow(c, s, tx);
    assert TxOk(c, rows, s.nextId, tx) && Chain(c, rows) && IdsBelow(rows, s.nextId);
    if !Clashes(rows, row.version, row.fp) {
      InsertExtends(c, rows, s, tx);
      InsertIsAlone(c, s, t, row);
    }
    LocalKeepsInv(c, s, DoInsert(c, s, t), t);
  }

  lemma {:induction false} PriorSchema(c: Config, rows: seq<Row>, nextId: nat, row: Row, cleared: nat)
    requires Chain(c, rows) && PendingOk(c, rows, nextId, row, cleared) && row.prev.Some?
    ensures rows != [] && SchemaOf(rows, row.prev.value) == rows[|rows| - 1].schema
  {
    SchemaOfMember(rows, |rows| - 1);
  }

  lemma {:induction false} ReclassifyToKeeps(c: Config, s: State, t: nat, cls: Severity)
    requires Inv(c, s) && t in s.txs && s.txs[t].phase.Inserted?
    requires ClassOk(c, Rows(s, s.txs[t].endpoint), s.txs[t].phase.row.(cls := cls))
    ensures Inv(c, SetPhase(s, t, Classified(s.txs[t].phase.row.(cls := cls), s.txs[t].phase.cleared)))
  {
    var tx := s.txs[t];
    var s' := SetPhase(s, t, Classified(tx.phase.row.(cls := cls), tx.phase.cleared));
    assert TxOk(c, Rows(s, tx.endpoint), s.nextId, tx);
    StaysAlone(s, t, s'.txs[t]);
    LocalKeepsInv(c, s, s', t);
  }

  lemma {:induction false} ReclassifyKeeps(c: Config, s: State, t: nat)
    requires Inv(c, s) && t in s.txs && s.txs[t].phase.Inserted? && s.txs[t].phase.row.prev.Some?
    ensures Inv(c, DoReclassify(c, s, t))
  {
    var tx := s.txs[t];
    var rows := Rows(s, tx.endpoint);
    assert TxOk(c, rows, s.nextId, tx) && Chain(c, rows);
    PriorSchema(c, rows, s.nextId, tx.phase.row, tx.phase.cleared);
    ReclassifyToKeeps(c, s, t, c.classOf(rows[|rows| - 1].schema, tx.phase.row.schema));
  }

  lemma {:induction false} EnqueueKeeps(c: Config, s: State, t: nat)
    requires Inv(c, s) && t in s.txs && s.txs[t].phase.Enqueuing? && s.txs[t].phase.done < |Announced(s.txs[t])|
    ensures Inv(c, DoEnqueue(s, t))
  {
    assert TxOk(c, Rows(s, s.txs[t].endpoint), s.nextId, s.txs[t]);
    if Pending(s.txs[t]) { StaysAlone(s, t, DoEnqueue(s, t).txs[t]); }
    LocalKeepsInv(c, s, DoEnqueue(s, t), t);
  }

  /** A step that neither inserts nor commits. */
  predicate Plain(a: Action) {
    a.FastLookup? || a.Lock? || a.ReadCurrent? || a.Recheck? || a.Clear? || a.Select?
  }

  lemma {:induction false} PlainStepKeepsTx(c: Config, s: State, a: Action)
    requires Enabled(c, s, a) && Plain(a) && Chain(c, Rows(s, s.txs[a.t].endpoint))
    requires TxOk(c, Rows(s, s.txs[a.t].endpoint), s.nextId, s.txs[a.t])
    ensures TxOk(c, Rows(s, s.txs[a.t].endpoint), s.nextId, Do(c, s, a).txs[a.t])
  {
    var rows := Rows(s, s.txs[a.t].endpoint);
    if a.FastLookup? || a.Recheck? { FoundKnown(c, rows, c.fpOf(s.txs[a.t].schema)); }
    if a.ReadCurrent? { CurrentKnown(c, rows); }
  }

  lemma {:induction false} PlainStepIsLocal(c: Config, s: State, a: Action)
    requires Enabled(c, s, a) && Plain(a)
    ensures LocalTo(s, Do(c, s, a), a.t) && Do(c, s, a).nextId == s.nextId
    ensures a.t in Do(c, s, a).txs && Do(c, s, a).txs[a.t].endpoint == s.txs[a.t].endpoint
    ensures Pending(Do(c, s, a).txs[a.t]) ==> Pending(s.txs[a.t])
  {
  }

  lemma {:induction false} PlainStepKeeps(c: Config, s: State, a: Action)
    requires Inv(c, s) && Enabled(c, s, a) && Plain(a)
    ensures Inv(c, Do(c, s, a))
  {
    var t, s' := a.t, Do(c, s, a);
    assert TxOk(c, Rows(s, s.txs[t].endpoint), s.nextId, s.txs[t]);
    PlainStepKeepsTx(c, s, a);
    PlainStepIsLocal(c, s, a);
    if Pending(s'.txs[t]) { StaysAlone(s, t, s'.txs[t]); }
    LocalKeepsInv(c, s, s', t);
  }

  lemma {:induction false} SameTablesKeep(c: Config, s: State, s': State)
    requires TablesOk(c, s) && s'.tables == s.tables && s'.nextId == s.nextId
    ensures TablesOk(c, s')
  {
    forall e ensures Chain(c, Rows(s', e)) && IdsBelow(Rows(s', e), s'.nextId) {
      assert Chain(c, Rows(s, e)) && IdsBelow(Rows(s, e), s.nextId);
    }
  }

  // ---- Commits ----

  lemma {:induction false} PublishKeepsInv(c: Config, s: State, t: nat)
    requires Inv(c, s) && t in s.txs && Pending(s.txs[t]) && MayCommit(c, s.txs[t])
    ensures TablesOk(c, DoPublish(s, t))
    ensures forall u | u in s.txs && u != t ::
      TxOk(c, Rows(DoPublish(s, t), s.txs[u].endpoint), s.nextId, s.txs[u])
    ensures Known(Rows(DoPublish(s, t), s.txs[t].endpoint), PendingRow(s.txs[t]))
  {
    var tx, s' := s.txs[t], DoPublish(s, t);
    var rows, row := Rows(s, tx.endpoint), PendingRow(tx);
    assert TxOk(c, rows, s.nextId, tx) && Chain(c, rows) && IdsBelow(rows, s.nextId);
    PublishExtends(c, rows, s.nextId, row);
    PublishKeepsIds(rows, s.nextId, row);
    forall e ensures Chain(c, Rows(s', e)) && IdsBelow(Rows(s', e), s'.nextId) {
      assert Chain(c, Rows(s, e)) && IdsBelow(Rows(s, e), s.nextId);
    }
    forall u | u in s.txs && u != t ensures TxOk(c, Rows(s', s.txs[u].endpoint), s.nextId, s.txs[u]) {
      PublishKeepsOther(c, s, t, u);
    }
  }

  lemma {:induction false} PublishKeepsOther(c: Config, s: State, t: nat, u: nat)
    requires Inv(c, s) && t in s.txs && Pending(s.txs[t]) && MayCommit(c, s.txs[t]) && u in s.txs && u != t
    ensures TxOk(c, Rows(DoPublish(s, t), s.txs[u].endpoint), s.nextId, s.txs[u])
  {
    var tx := s.txs[t];
    var rows := Rows(s, tx.endpoint);
    assert TxOk(c, Rows(s, s.txs[u].endpoint), s.nextId, s.txs[u]) && TxOk(c, rows, s.nextId, tx);
    assert Chain(c, rows) && IdsBelow(rows, s.nextId);
    if s.txs[u].endpoint == tx.endpoint { PublishKeepsTx(c, rows, s.nextId, PendingRow(tx), s.txs[u]); }
  }

  /** What the commit of a pending row leaves, whether its transaction ends there or,
      with inline delivery, goes on. */
  lemma {:induction false} AfterPublish(c: Config, s: State, s': State, t: nat)
    requires Inv(c, s) && t in s.txs && Pending(s.txs[t]) && MayCommit(c, s.txs[t])
    requires s'.tables == DoPublish(s, t).tables && s'.nextId == s.nextId
    requires OthersSame(s, s', t)
    requires t in s'.txs ==>
      && s'.txs[t].endpoint == s.txs[t].endpoint && !Pending(s'.txs[t])
      && (Known(Rows(DoPublish(s, t), s.txs[t].endpoint), PendingRow(s.txs[t])) ==>
            TxOk(c, Rows(DoPublish(s, t), s.txs[t].endpoint), s.nextId, s'.txs[t]))
    ensures Inv(c, s')
  {
    var p := DoPublish(s, t);
    PublishKeepsInv(c, s, t);
    SameTablesKeep(c, p, s');
    OthersKeepTxs(c, s, p, s', t);
    OthersKeepPending(s, s', t);
  }

  ghost predicate OthersSame(s: State, s': State, t: nat) {
    forall u | u != t :: (u in s'.txs <==> u in s.txs) && (u in s.txs ==> s'.txs[u] == s.txs[u])
  }

  lemma {:induction false} OthersKeepTxs(c: Config, s: State, p: State, s': State, t: nat)
    requires OthersSame(s, s', t) && s'.tables == p.tables && s'.nextId == s.nextId
    requires forall u | u in s.txs && u != t :: TxOk(c, Rows(p, s.txs[u].endpoint), s.nextId, s.txs[u])
    requires t in s'.txs ==> TxOk(c, Rows(p, s'.txs[t].endpoint), s.nextId, s'.txs[t])
    ensures TxsOk(c, s')
  {
    forall e ensures Rows(s', e) == Rows(p, e) {}
    forall u | u in s'.txs ensures TxOk(c, Rows(s', s'.txs[u].endpoint), s'.nextId, s'.txs[u]) {
      assert Rows(s', s'.txs[u].endpoint) == Rows(p, s'.txs[u].endpoint);
    }
  }

  lemma {:induction false} OthersKeepPending(s: State, s': State, t: nat)
    requires OnePending(s) && OthersSame(s, s', t) && (t in s'.txs ==> !Pending(s'.txs[t]))
    ensures OnePending(s')
  {
  }

  lemma {:induction false} CommitPendingKeeps(c: Config, s: State, t: nat)
    requires Inv(c, s) && t in s.txs && MayCommit(c, s.txs[t]) && Pending(s.txs[t])
    ensures Inv(c, DoCommit(c, s, t))
  {
    var tx := s.txs[t];
    assert TxOk(c, Rows(s, tx.endpoint), s.nextId, tx);
    if tx.phase.Enqueuing? { assert PendingRow(tx).version > 1; }
    AfterPublish(c, s, DoCommit(c, s, t), t);
  }

  lemma {:induction false} CommitPublishedKeeps(c: Config, s: State, t: nat)
    requires Inv(c, s) && t in s.txs && MayCommit(c, s.txs[t]) && !Pending(s.txs[t])
    ensures Inv(c, DoCommit(c, s, t))
  {
    assert TxOk(c, Rows(s, s.txs[t].endpoint), s.nextId, s.txs[t]);
    LocalKeepsInv(c, s, DoCommit(c, s, t), t);
  }

  lemma {:induction false} ChangeKeeps(c: Config, s: State, subs: seq<Subscription>)
    requires Inv(c, s)
    ensures Inv(c, s.(subs := subs))
  {
    SameTablesKeep(c, s, s.(subs := subs));
  }

  lemma {:induction false} BeginKeeps(c: Config, s: State, t: nat, tx: Tx)
    requires Inv(c, s) && t !in s.txs && tx.phase.Looking?
    ensures Inv(c, s.(txs := s.txs[t := tx]))
  {
    LocalKeepsInv(c, s, s.(txs := s.txs[t := tx]), t);
  }

  lemma {:induction false} StepKeepsInv(c: Config, s: State, a: Action)
    requires Inv(c, s) && Enabled(c, s, a)
    ensures Inv(c, Do(c, s, a))
  {
    match a
    case Begin(t, process, e, schema) => BeginKeeps(c, s, t, Tx(process, e, schema, Looking, false, []));
    case Insert(t) => InsertKeeps(c, s, t);
    case Reclassify(t) => ReclassifyKeeps(c, s, t);
    case Enqueue(t) => EnqueueKeeps(c, s, t);
    case Commit(t) => if Pending(s.txs[t]) { CommitPendingKeeps(c, s, t); } else { CommitPublishedKeeps(c, s, t); }
    case Abort(t) => LocalKeepsInv(c, s, Drop(s, t), t);
    case ChangeSubscriptions(subs) => ChangeKeeps(c, s, subs);
    case _ => PlainStepKeeps(c, s, a);
  }

  lemma {:induction false} RunsKeepInv(c: Config, run: seq<State>, acts: seq<Action>, i: nat)
    requires IsRun(c, run, acts) && i < |run|
    ensures Inv(c, run[i])
    decreases i
  {
    if i > 0 {
      RunsKeepInv(c, run, acts, i - 1);
      assert Enabled(c, run[i - 1], acts[i - 1]);
      StepKeepsInv(c, run[i - 1], acts[i - 1]);
    }
  }

  // ---- What the invariant says ----

  /** In every state of every run, for every endpoint and whatever lock ids the
      processes use: versions 1..n, one current row and that the last, distinct
      fingerprints, each row linked to the row before it and stored with the class
      of its difference from it, SAFE for the first. */
  lemma {:induction false} RunsKeepChain(c: Config, run: seq<State>, acts: seq<Action>, i: nat, e: string)
    requires IsRun(c, run, acts) && i < |run|
    ensures var rows := Rows(run[i], e);
      && (forall k | 0 <= k < |rows| :: RowOk(c, rows, k))
      && (forall j, k | 0 <= j < k < |rows| :: rows[j].fp != rows[k].fp && rows[j].id != rows[k].id)
  {
    RunsKeepInv(c, run, acts, i);
    assert Chain(c, Rows(run[i], e));
  }

  lemma {:induction false} CommitPublishes(c: Config, s: State, t: nat)
    requires t in s.txs && MayCommit(c, s.txs[t]) && Pending(s.txs[t])
    ensures DoCommit(c, s, t).tables == DoPublish(s, t).tables
  {
  }

  lemma {:induction false} PublishClearsAll(c: Config, s: State, t: nat)
    requires Inv(c, s) && t in s.txs && Pending(s.txs[t])
    ensures s.txs[t].phase.cleared == |Rows(s, s.txs[t].endpoint)|
  {
    assert TxOk(c, Rows(s, s.txs[t].endpoint), s.nextId, s.txs[t]);
  }

  /** A transaction's commit adds one row to its endpoint's chain, clears the flag of
      the row before it, changes no other field, and touches no other endpoint. */
  lemma {:induction false} CommitExtendsByOne(c: Config, s: State, t: nat, e: string)
    requires Inv(c, s) && t in s.txs && MayCommit(c, s.txs[t]) && Pending(s.txs[t])
    ensures var before, after := Rows(s, e), Rows(DoCommit(c, s, t), e);
      if e == s.txs[t].endpoint then
        && |after| == |before| + 1 && after[|before|] == PendingRow(s.txs[t])
        && forall k | 0 <= k < |before| :: after[k] == before[k].(current := false)
      else after == before
  {
    CommitPublishes(c, s, t);
    PublishClearsAll(c, s, t);
    var before, after := Rows(s, e), Rows(DoPublish(s, t), e);
    if e == s.txs[t].endpoint {
      var r := Publish(before, |before|, PendingRow(s.txs[t]));
      assert after == r;
      forall k | 0 <= k < |before| ensures after[k] == before[k].(current := false) {
        assert r[k] == before[k].(current := false);
      }
    }
  }

  lemma {:induction false} ClashesIffStale(c: Config, rows: seq<Row>, v: nat, fp: string)
    requires Chain(c, rows) && v <= |rows|
    ensures Clashes(rows, v + 1, fp) <==> v != |rows| || FindFp(rows, fp).Some?
  {
    FindFpSound(rows, fp);
    forall i | 0 <= i < |rows| ensures rows[i].version == i + 1 { assert RowOk(c, rows, i); }
    assert v < |rows| ==> rows[v].version == v + 1;
  }

  /** A transaction that another commit overtook since it read the current row, or
      whose fingerprint has been committed meanwhile, hits a UNIQUE constraint and
      aborts; exactly the others go on. */
  lemma {:induction false} StaleInsertAborts(c: Config, s: State, t: nat)
    requires Inv(c, s) && Enabled(c, s, Insert(t))
    ensures var rows, tx := Rows(s, s.txs[t].endpoint), s.txs[t];
      t !in Do(c, s, Insert(t)).txs <==>
      VersionRead(tx.phase.cur) != |rows| || FindFp(rows, c.fpOf(tx.schema)).Some?
  {
    var tx := s.txs[t];
    var rows := Rows(s, tx.endpoint);
    assert TxOk(c, rows, s.nextId, tx) && Chain(c, rows);
    ClashesIffStale(c, rows, VersionRead(tx.phase.cur), c.fpOf(tx.schema));
  }
}
