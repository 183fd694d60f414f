/** The versioned schema registry as a protocol: any number of `/track`
    transactions interleave statement by statement over committed tables,
    private writes, advisory locks and UNIQUE constraints. */
module RegistryModel {
  import opened Texts
  import opened Severities
  import opened Classifier

  datatype Row = Row(
    id: nat, version: nat, fp: string, schema: Schema,
    cls: Severity, prev: Option<nat>, current: bool)

  datatype Subscription = Subscription(id: nat, endpoint: string, threshold: string, fromVersion: Option<int>, active: bool)

  /** A webhook outbox row, known by the endpoint version it announces and its subscription. */
  datatype OutboxRow = OutboxRow(endpoint: string, version: nat, sub: nat)

  /** What a committed call returned. */
  datatype Call = Call(endpoint: string, fp: string, version: nat, inserted: bool)

  /** The parts of a deployment that never change: the fingerprint of a schema, the
      class of a schema against the one before it, the lock id each process derives
      for an endpoint, and the delivery mode. */
  datatype Config = Config(
    fpOf: Schema -> string, classOf: (Schema, Schema) -> Severity,
    lockOf: (nat, string) -> int, inline: bool)

  /** How far a transaction has come, with what it has read and privately written. */
  datatype Phase =
    | Looking
    | Waiting
    | Holding
    | SawCurrent(cur: Option<Row>)
    | Missed(cur: Option<Row>)
    | Cleared(cur: Option<Row>, cleared: nat)
    | Inserted(row: Row, cleared: nat)
    | Classified(row: Row, cleared: nat)
    | Enqueuing(row: Row, cleared: nat, seen: seq<Subscription>, done: nat, published: bool)
    | Found(row: Row)

  datatype Tx = Tx(process: nat, endpoint: string, schema: Schema, phase: Phase, locked: bool, unsent: seq<OutboxRow>)

  datatype State = State(
    tables: map<string, seq<Row>>,
    subs: seq<Subscription>,
    outbox: seq<OutboxRow>,
    txs: map<nat, Tx>,
    nextId: nat,
    calls: seq<Call>,
    seenAt: map<(string, nat), seq<Subscription>>)  // history: what the select of a published version read

  datatype Action =
    | Begin(t: nat, process: nat, endpoint: string, schema: Schema)
    | FastLookup(t: nat)
    | Lock(t: nat)
    | ReadCurrent(t: nat)
    | Recheck(t: nat)
    | Clear(t: nat)
    | Insert(t: nat)
    | Reclassify(t: nat)
    | Select(t: nat)
    | Enqueue(t: nat)
    | Commit(t: nat)
    | Abort(t: nat)
    | ChangeSubscriptions(subs: seq<Subscription>)

  const EMPTY: State := State(map[], [], [], map[], 0, [], map[])

  function Rows(s: State, e: string): seq<Row> {
    if e in s.tables then s.tables[e] else []
  }

  // ---- The queries ----

  function FindFp(rows: seq<Row>, fp: string): Option<Row> {
    if rows == [] then None
    else if rows[0].fp == fp then Some(rows[0])
    else FindFp(rows[1..], fp)
  }

  /** The current row of the highest version. */
  function FindCurrent(rows: seq<Row>): Option<Row> {
    if rows == [] then None
    else
      var rest := FindCurrent(rows[1..]);
      if rows[0].current && (rest.None? || rest.value.version < rows[0].version) then Some(rows[0]) else rest
  }

  predicate Clashes(rows: seq<Row>, version: nat, fp: string) {
    exists i | 0 <= i < |rows| :: rows[i].version == version || rows[i].fp == fp
  }

  function Matching(sub: Subscription, e: string, version: nat, cls: Severity): bool {
    && sub.endpoint == e && sub.active
    && (sub.fromVersion.None? || sub.fromVersion.value <= version)
    && Rank(cls) >= RankOfName(sub.threshold)
  }

  function Affected(subs: seq<Subscription>, e: string, version: nat, cls: Severity): seq<Subscription> {
    if subs == [] then []
    else (if Matching(subs[0], e, version, cls) then [subs[0]] else []) + Affected(subs[1..], e, version, cls)
  }

  // ---- Private writes ----

  /** The version row a transaction has inserted and not yet published. */
  predicate Pending(tx: Tx) {
    tx.phase.Inserted? || tx.phase.Classified? || (tx.phase.Enqueuing? && !tx.phase.published)
  }

  function PendingRow(tx: Tx): Row
    requires Pending(tx)
  {
    tx.phase.row
  }

  /** Committing an UPDATE that cleared the first `n` rows and an INSERT of `row`. */
  function Publish(rows: seq<Row>, n: nat, row: Row): (r: seq<Row>)
    ensures |r| == |rows| + 1 && r[|rows|] == row
    ensures forall i | 0 <= i < |rows| :: r[i] == if i < n then rows[i].(current := false) else rows[i]
  {
    seq(|rows|, i requires 0 <= i < |rows| => if i < n then rows[i].(current := false) else rows[i]) + [row]
  }

  function NewRow(c: Config, s: State, tx: Tx): Row
    requires tx.phase.Cleared?
  {
    var cur := tx.phase.cur;
    Row(s.nextId, if cur.None? then 1 else cur.value.version + 1, c.fpOf(tx.schema), tx.schema, Safe,
        if cur.None? then None else Some(cur.value.id), true)
  }

  // ---- Steps ----

  /** Another transaction holds the advisory lock id this one asks for. */
  predicate LockTaken(c: Config, s: State, t: nat)
    requires t in s.txs
  {
    exists u | u in s.txs && u != t ::
      s.txs[u].locked && c.lockOf(s.txs[u].process, s.txs[u].endpoint) == c.lockOf(s.txs[t].process, s.txs[t].endpoint)
  }

  /** An uncommitted insert with the same version or fingerprint makes an insert wait. */
  predicate InsertBlocked(c: Config, s: State, t: nat)
    requires t in s.txs && s.txs[t].phase.Cleared?
  {
    var row := NewRow(c, s, s.txs[t]);
    exists u | u in s.txs && u != t ::
      && s.txs[u].endpoint == s.txs[t].endpoint && Pending(s.txs[u])
      && (PendingRow(s.txs[u]).version == row.version || PendingRow(s.txs[u]).fp == row.fp)
  }

  ghost predicate DistinctSubs(subs: seq<Subscription>) {
    forall i, j | 0 <= i < j < |subs| :: subs[i].id != subs[j].id
  }

  function Announced(tx: Tx): seq<Subscription>
    requires tx.phase.Enqueuing?
  {
    Affected(tx.phase.seen, tx.endpoint, tx.phase.row.version, tx.phase.row.cls)
  }

  /** The final commit of the request, or with inline delivery the commit inside a delivery. */
  predicate MayCommit(c: Config, tx: Tx) {
    match tx.phase
    case Found(_) => true
    case Inserted(row, _) => row.prev.None?
    case Enqueuing(_, _, _, done, _) => done == |Announced(tx)| || (c.inline && tx.unsent != [])
    case _ => false
  }

  ghost predicate Enabled(c: Config, s: State, a: Action) {
    match a
    case Begin(t, _, _, _) => t !in s.txs
    case FastLookup(t) => t in s.txs && s.txs[t].phase.Looking?
    case Lock(t) => t in s.txs && s.txs[t].phase.Waiting? && !LockTaken(c, s, t)
    case ReadCurrent(t) => t in s.txs && s.txs[t].phase.Holding?
    case Recheck(t) => t in s.txs && s.txs[t].phase.SawCurrent?
    case Clear(t) => t in s.txs && s.txs[t].phase.Missed?
    case Insert(t) => t in s.txs && s.txs[t].phase.Cleared? && !InsertBlocked(c, s, t)
    case Reclassify(t) => t in s.txs && s.txs[t].phase.Inserted? && s.txs[t].phase.row.prev.Some?
    case Select(t) => t in s.txs && s.txs[t].phase.Classified?
    case Enqueue(t) => t in s.txs && s.txs[t].phase.Enqueuing? && s.txs[t].phase.done < |Announced(s.txs[t])|
    case Commit(t) => t in s.txs && MayCommit(c, s.txs[t])
    case Abort(t) => t in s.txs
    case ChangeSubscriptions(subs) => DistinctSubs(subs)
  }

  function SetPhase(s: State, t: nat, p: Phase): State
    requires t in s.txs
  {
    s.(txs := s.txs[t := s.txs[t].(phase := p)])
  }

  function Drop(s: State, t: nat): State { s.(txs := s.txs - {t}) }

  /** The schema stored under a row id. */
  function SchemaOf(rows: seq<Row>, id: nat): Schema {
    if rows == [] then Dict([]) else if rows[0].id == id then rows[0].schema else SchemaOf(rows[1..], id)
  }

  function DoInsert(c: Config, s: State, t: nat): State
    requires t in s.txs && s.txs[t].phase.Cleared?
  {
    var tx := s.txs[t];
    var row := NewRow(c, s, tx);
    if Clashes(Rows(s, tx.endpoint), row.version, row.fp) then Drop(s, t)
    else SetPhase(s, t, Inserted(row, tx.phase.cleared)).(nextId := s.nextId + 1)
  }

  function DoReclassify(c: Config, s: State, t: nat): State
    requires t in s.txs && s.txs[t].phase.Inserted? && s.txs[t].phase.row.prev.Some?
  {
    var tx := s.txs[t];
    var row := tx.phase.row;
    var before := SchemaOf(Rows(s, tx.endpoint), row.prev.value);
    SetPhase(s, t, Classified(row.(cls := c.classOf(before, row.schema)), tx.phase.cleared))
  }

  function DoEnqueue(s: State, t: nat): State
    requires t in s.txs && s.txs[t].phase.Enqueuing? && s.txs[t].phase.done < |Announced(s.txs[t])|
  {
    var tx := s.txs[t];
    var p := tx.phase;
    var out := OutboxRow(tx.endpoint, p.row.version, Announced(tx)[p.done].id);
    s.(txs := s.txs[t := tx.(phase := p.(done := p.done + 1), unsent := tx.unsent + [out])])
  }

  function DoPublish(s: State, t: nat): State
    requires t in s.txs && Pending(s.txs[t])
  {
    var tx := s.txs[t];
    var row := PendingRow(tx);
    var seen := if tx.phase.Enqueuing? then tx.phase.seen else [];
    s.(tables := s.tables[tx.endpoint := Publish(Rows(s, tx.endpoint), tx.phase.cleared, row)],
       calls := s.calls + [Call(tx.endpoint, row.fp, row.version, true)],
       seenAt := s.seenAt[(tx.endpoint, row.version) := seen])
  }

  function DoCommit(c: Config, s: State, t: nat): State
    requires t in s.txs && MayCommit(c, s.txs[t])
  {
    var tx := s.txs[t];
    match tx.phase
    case Found(row) => Drop(s.(calls := s.calls + [Call(tx.endpoint, row.fp, row.version, false)]), t)
    case Inserted(_, _) => Drop(DoPublish(s, t), t)
    case Enqueuing(_, _, _, done, published) =>
      var s1 := (if published then s else DoPublish(s, t)).(outbox := s.outbox + tx.unsent);
      if done == |Announced(tx)| then Drop(s1, t)
      else s1.(txs := s1.txs[t := tx.(phase := tx.phase.(published := true), locked := false, unsent := [])])
  }

  function Do(c: Config, s: State, a: Action): State
    requires Enabled(c, s, a)
  {
    match a
    case Begin(t, process, e, schema) => s.(txs := s.txs[t := Tx(process, e, schema, Looking, false, [])])
    case FastLookup(t) =>
      var found := FindFp(Rows(s, s.txs[t].endpoint), c.fpOf(s.txs[t].schema));
      SetPhase(s, t, if found.Some? then Found(found.value) else Waiting)
    case Lock(t) => s.(txs := s.txs[t := s.txs[t].(phase := Holding, locked := true)])
    case ReadCurrent(t) => SetPhase(s, t, SawCurrent(FindCurrent(Rows(s, s.txs[t].endpoint))))
    case Recheck(t) =>
      var found := FindFp(Rows(s, s.txs[t].endpoint), c.fpOf(s.txs[t].schema));
      SetPhase(s, t, if found.Some? then Found(found.value) else Missed(s.txs[t].phase.cur))
    case Clear(t) =>
      var cur := s.txs[t].phase.cur;
      SetPhase(s, t, Cleared(cur, if cur.None? then 0 else |Rows(s, s.txs[t].endpoint)|))
    case Insert(t) => DoInsert(c, s, t)
    case Reclassify(t) => DoReclassify(c, s, t)
    case Select(t) =>
      var p := s.txs[t].phase;
      SetPhase(s, t, Enqueuing(p.row, p.cleared, s.subs, 0, false))
    case Enqueue(t) => DoEnqueue(s, t)
    case Commit(t) => DoCommit(c, s, t)
    case Abort(t) => Drop(s, t)
    case ChangeSubscriptions(subs) => s.(subs := subs)
  }

  // ---- Runs ----

  /** A run: states linked by enabled actions, from the empty registry. */
  ghost predicate IsRun(c: Config, run: seq<State>, acts: seq<Action>) {
    && |run| == |acts| + 1 && run[0] == EMPTY
    && forall i | 0 <= i < |acts| :: Enabled(c, run[i], acts[i]) && run[i + 1] == Do(c, run[i], acts[i])
  }
}
