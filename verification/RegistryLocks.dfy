/** Advisory locks: with lock ids shared by all processes they serialise the calls on an
    endpoint, so that no insert ever waits for or meets another one; and only then. */
module RegistryLocks {
  import opened Texts
  import opened Severities
  import opened Classifier
  import opened RegistryModel
  import opened RegistryChain
  import opened RegistryRuns

  /** All calls derive the same lock id for an endpoint, as calls of one process do.
      Different endpoints may still share an id. */
  ghost predicate SharedLocks(c: Config) {
    forall p, q, e :: c.lockOf(p, e) == c.lockOf(q, e)
  }

  /** The lock id a process derives for an endpoint's key from its own string hash. */
  function ProcessLockId(hash: string -> int, key: string): (id: int)
    ensures 0 <= id < 2147483647
  {
    (if hash(key) < 0 then -hash(key) else hash(key)) % 2147483647
  }

  /** The id is the remainder of the hash's magnitude. */
  lemma {:induction false} LockIdMeans(hash: string -> int, key: string)
    ensures exists q: nat :: ProcessLockId(hash, key) + q * 2147483647 == hash(key) || -ProcessLockId(hash, key) - q * 2147483647 == hash(key)
  {
    var h := if hash(key) < 0 then -hash(key) else hash(key);
    var q: nat := h / 2147483647;
    assert ProcessLockId(hash, key) + q * 2147483647 == h;
  }

  /** Process `p` hashes strings with `hashOf(p)`. */
  ghost predicate LocksByHash(c: Config, hashOf: nat -> (string -> int)) {
    forall p, e :: c.lockOf(p, e) == ProcessLockId(hashOf(p), e)
  }

  /** From taking the advisory lock up to the commit that releases it. */
  predicate Guarded(tx: Tx) {
    || tx.phase.Holding? || tx.phase.SawCurrent? || tx.phase.Missed? || tx.phase.Cleared? || Pending(tx)
  }

  /** What a guarded transaction has read is still so. */
  predicate Fresh(c: Config, rows: seq<Row>, tx: Tx) {
    match tx.phase
    case SawCurrent(cur) => VersionRead(cur) == |rows|
    case Missed(cur) => VersionRead(cur) == |rows| && FindFp(rows, c.fpOf(tx.schema)).None?
    case Cleared(cur, _) => VersionRead(cur) == |rows| && FindFp(rows, c.fpOf(tx.schema)).None?
    case _ => true
  }

  predicate GuardOk(c: Config, rows: seq<Row>, tx: Tx) {
    (Guarded(tx) ==> tx.locked) && Fresh(c, rows, tx)
  }

  function LockId(c: Config, tx: Tx): int { c.lockOf(tx.process, tx.endpoint) }

  ghost predicate Exclusive(c: Config, s: State) {
    forall t, u | t in s.txs && u in s.txs && t != u && s.txs[t].locked && s.txs[u].locked ::
      LockId(c, s.txs[t]) != LockId(c, s.txs[u])
  }

  ghost predicate GuardsOk(c: Config, s: State) {
    forall t | t in s.txs :: GuardOk(c, Rows(s, s.txs[t].endpoint), s.txs[t])
  }

  ghost predicate LockInv(c: Config, s: State) { Exclusive(c, s) && GuardsOk(c, s) }

  /** Transaction `t`, in its new state, shares its lock id with no other holder. */
  ghost predicate SoleHolder(c: Config, s: State, t: nat, tx: Tx) {
    tx.locked ==> forall u | u in s.txs && u != t && s.txs[u].locked :: LockId(c, s.txs[u]) != LockId(c, tx)
  }

  lemma {:induction false} LocalKeepsLocks(c: Config, s: State, s': State, t: nat)
    requires LockInv(c, s) && LocalTo(s, s', t)
    requires t in s'.txs ==> GuardOk(c, Rows(s, s'.txs[t].endpoint), s'.txs[t]) && SoleHolder(c, s, t, s'.txs[t])
    ensures LockInv(c, s')
  {
    forall u | u in s'.txs ensures GuardOk(c, Rows(s', s'.txs[u].endpoint), s'.txs[u]) {
      assert Rows(s', s'.txs[u].endpoint) == Rows(s, s'.txs[u].endpoint);
    }
  }

  /** Every step of a transaction on its own keeps what it has read fresh. */
  lemma {:induction false} OwnStepKeepsGuard(c: Config, s: State, a: Action)
    requires Enabled(c, s, a) && Plain(a) && Chain(c, Rows(s, s.txs[a.t].endpoint))
    requires GuardOk(c, Rows(s, s.txs[a.t].endpoint), s.txs[a.t])
    ensures GuardOk(c, Rows(s, s.txs[a.t].endpoint), Do(c, s, a).txs[a.t])
    ensures LockId(c, Do(c, s, a).txs[a.t]) == LockId(c, s.txs[a.t])
    ensures !a.Lock? ==> Do(c, s, a).txs[a.t].locked == s.txs[a.t].locked
  {
    CurrentIsLast(c, Rows(s, s.txs[a.t].endpoint));
  }

  lemma {:induction false} HolderStays(c: Config, s: State, t: nat, tx: Tx)
    requires Exclusive(c, s) && t in s.txs && s.txs[t].locked && LockId(c, tx) == LockId(c, s.txs[t])
    ensures SoleHolder(c, s, t, tx)
  {
  }

  lemma {:induction false} PlainKeepsLocks(c: Config, s: State, a: Action)
    requires Inv(c, s) && LockInv(c, s) && Enabled(c, s, a) && Plain(a)
    ensures LockInv(c, Do(c, s, a))
  {
    var t, s' := a.t, Do(c, s, a);
    assert Chain(c, Rows(s, s.txs[t].endpoint));
    PlainStepIsLocal(c, s, a);
    OwnStepKeepsGuard(c, s, a);
    if s.txs[t].locked { HolderStays(c, s, t, s'.txs[t]); }
    LocalKeepsLocks(c, s, s', t);
  }

  /** A step that moves a pending transaction on. */
  lemma {:induction false} PendingKeepsLocks(c: Config, s: State, t: nat, s': State)
    requires LockInv(c, s) && t in s.txs && LocalTo(s, s', t)
    requires t in s'.txs ==>
      && LockId(c, s'.txs[t]) == LockId(c, s.txs[t]) && s'.txs[t].locked == s.txs[t].locked
      && (Guarded(s'.txs[t]) ==> Guarded(s.txs[t])) && Fresh(c, Rows(s, s.txs[t].endpoint), s'.txs[t])
      && s'.txs[t].endpoint == s.txs[t].endpoint
    ensures LockInv(c, s')
  {
    if t in s'.txs && s.txs[t].locked { HolderStays(c, s, t, s'.txs[t]); }
    LocalKeepsLocks(c, s, s', t);
  }

  lemma {:induction false} SameEndpointExcludes(c: Config, s: State, t: nat, u: nat)
    requires LockInv(c, s) && SharedLocks(c) && t in s.txs && u in s.txs && t != u
    requires Guarded(s.txs[t]) && Guarded(s.txs[u])
    ensures s.txs[t].endpoint != s.txs[u].endpoint
  {
    assert GuardOk(c, Rows(s, s.txs[t].endpoint), s.txs[t]) && GuardOk(c, Rows(s, s.txs[u].endpoint), s.txs[u]);
  }

  lemma {:induction false} PublishingKeepsLocks(c: Config, s: State, s': State, t: nat)
    requires LockInv(c, s) && SharedLocks(c) && t in s.txs && Pending(s.txs[t])
    requires forall e | e != s.txs[t].endpoint :: Rows(s', e) == Rows(s, e)
    requires forall u | u != t :: (u in s'.txs <==> u in s.txs) && (u in s.txs ==> s'.txs[u] == s.txs[u])
    requires t in s'.txs ==> !Guarded(s'.txs[t]) && !s'.txs[t].locked
    ensures LockInv(c, s')
  {
    forall u | u in s'.txs ensures GuardOk(c, Rows(s', s'.txs[u].endpoint), s'.txs[u]) {
      if u != t {
        assert GuardOk(c, Rows(s, s.txs[u].endpoint), s.txs[u]);
        if Guarded(s.txs[u]) { SameEndpointExcludes(c, s, t, u); }
      }
    }
  }

  lemma {:induction false} CommitKeepsLocks(c: Config, s: State, t: nat)
    requires LockInv(c, s) && SharedLocks(c) && t in s.txs && MayCommit(c, s.txs[t])
    ensures LockInv(c, DoCommit(c, s, t))
  {
    var s' := DoCommit(c, s, t);
    if Pending(s.txs[t]) {
      CommitPublishes(c, s, t);
      PublishingKeepsLocks(c, s, s', t);
    } else {
      LocalKeepsLocks(c, s, s', t);
    }
  }

  lemma {:induction false} BeginKeepsLocks(c: Config, s: State, t: nat, tx: Tx)
    requires LockInv(c, s) && t !in s.txs && tx.phase.Looking? && !tx.locked
    ensures LockInv(c, s.(txs := s.txs[t := tx]))
  {
    LocalKeepsLocks(c, s, s.(txs := s.txs[t := tx]), t);
  }

  lemma {:induction false} ReclassifyKeepsLocks(c: Config, s: State, t: nat, row: Row)
    requires LockInv(c, s) && t in s.txs && s.txs[t].phase.Inserted?
    ensures LockInv(c, SetPhase(s, t, Classified(row, s.txs[t].phase.cleared)))
  {
    PendingKeepsLocks(c, s, t, SetPhase(s, t, Classified(row, s.txs[t].phase.cleared)));
  }

  lemma {:induction false} InsertKeepsLocks(c: Config, s: State, t: nat)
    requires LockInv(c, s) && t in s.txs && s.txs[t].phase.Cleared?
    ensures LockInv(c, DoInsert(c, s, t))
  {
    PendingKeepsLocks(c, s, t, DoInsert(c, s, t));
  }

  lemma {:induction false} EnqueueKeepsLocks(c: Config, s: State, t: nat)
    requires LockInv(c, s) && t in s.txs && s.txs[t].phase.Enqueuing? && s.txs[t].phase.done < |Announced(s.txs[t])|
    ensures LockInv(c, DoEnqueue(s, t))
  {
    PendingKeepsLocks(c, s, t, DoEnqueue(s, t));
  }

  lemma {:induction false} ChangeKeepsLocks(c: Config, s: State, subs: seq<Subscription>)
    requires LockInv(c, s)
    ensures LockInv(c, s.(subs := subs))
  {
    assert forall e :: Rows(s.(subs := subs), e) == Rows(s, e);
  }

  lemma {:induction false} StepKeepsLocks(c: Config, s: State, a: Action)
    requires Inv(c, s) && LockInv(c, s) && SharedLocks(c) && Enabled(c, s, a)
    ensures LockInv(c, Do(c, s, a))
  {
    match a
    case Begin(t, process, e, schema) => BeginKeepsLocks(c, s, t, Tx(process, e, schema, Looking, false, []));
    case Insert(t) => InsertKeepsLocks(c, s, t);
    case Reclassify(t) => ReclassifyKeepsLocks(c, s, t, DoReclassify(c, s, t).txs[t].phase.row);
    case Enqueue(t) => EnqueueKeepsLocks(c, s, t);
    case Commit(t) => CommitKeepsLocks(c, s, t);
    case Abort(t) => LocalKeepsLocks(c, s, Drop(s, t), t);
    case ChangeSubscriptions(subs) => ChangeKeepsLocks(c, s, subs);
    case _ => PlainKeepsLocks(c, s, a);
  }

  lemma {:induction false} RunsKeepLocks(c: Config, run: seq<State>, acts: seq<Action>, i: nat)
    requires IsRun(c, run, acts) && SharedLocks(c) && i < |run|
    ensures LockInv(c, run[i])
    decreases i
  {
    if i > 0 {
      RunsKeepLocks(c, run, acts, i - 1);
      RunsKeepInv(c, run, acts, i - 1);
      assert Enabled(c, run[i - 1], acts[i - 1]);
      StepKeepsLocks(c, run[i - 1], acts[i - 1]);
    }
  }

  /** In one process, an insert never waits for another one and never clashes. */
  lemma {:induction false} OneProcessNeverClashes(c: Config, run: seq<State>, acts: seq<Action>, i: nat, t: nat)
    requires IsRun(c, run, acts) && SharedLocks(c) && i < |run|
    requires t in run[i].txs && run[i].txs[t].phase.Cleared?
    ensures !InsertBlocked(c, run[i], t) && t in Do(c, run[i], Insert(t)).txs
  {
    var s := run[i];
    RunsKeepInv(c, run, acts, i);
    RunsKeepLocks(c, run, acts, i);
    forall u | u in s.txs && u != t && Pending(s.txs[u]) ensures s.txs[u].endpoint != s.txs[t].endpoint {
      SameEndpointExcludes(c, s, t, u);
    }
    assert GuardOk(c, Rows(s, s.txs[t].endpoint), s.txs[t]);
    StaleInsertAborts(c, s, t);
  }

  // ---- Across processes the lock does not serialise ----

  /** The first insert on an empty endpoint goes through to its commit. */
  lemma {:induction false} ReachesFirstRow(c: Config, s: State, t: nat, p: nat, e: string, schema: Schema)
    requires Rows(s, e) == [] && Reachable(c, With(s, t, Tx(p, e, schema, Cleared(None, 0), true, [])))
    requires forall u | u in s.txs :: !Pending(s.txs[u])
    ensures exists s' :: Reachable(c, s') && s'.txs == s.txs - {t} && |Rows(s', e)| == 1
  {
    var row := Row(s.nextId, 1, c.fpOf(schema), schema, Safe, None, true);
    var s1 := With(s, t, Tx(p, e, schema, Cleared(None, 0), true, []));
    assert NewRow(c, s1, s1.txs[t]) == row;
    ReachesNext(c, s1, Insert(t));
    var s2 := Do(c, s1, Insert(t));
    assert s2.txs[t] == Tx(p, e, schema, Inserted(row, 0), true, []);
    ReachesNext(c, s2, Commit(t));
    CommitPublishes(c, s2, t);
    var s3 := Do(c, s2, Commit(t));
    assert s3.txs == s.txs - {t};
    assert Rows(s3, e) == Publish([], 0, row);
  }

  /** The insert that `t` is about to make would wait for another transaction or violate a
      UNIQUE constraint. */
  predicate InsertMeetsAnother(c: Config, s: State, t: nat)
    requires t in s.txs && s.txs[t].phase.Cleared?
  {
    var row := NewRow(c, s, s.txs[t]);
    InsertBlocked(c, s, t) || Clashes(Rows(s, s.txs[t].endpoint), row.version, row.fp)
  }

  /** In no reachable state does an insert wait or violate a constraint. */
  ghost predicate NeverClashes(c: Config) {
    forall s, t | Reachable(c, s) && t in s.txs && s.txs[t].phase.Cleared? :: !InsertMeetsAnother(c, s, t)
  }

  /** Two processes that derive different lock ids for an endpoint reach a state where
      one call's insert meets the other's committed row and aborts. */
  lemma {:induction false} TwoProcessesCanClash(c: Config, p: nat, q: nat, e: string, first: Schema, second: Schema)
    requires c.lockOf(p, e) != c.lockOf(q, e)
    ensures exists s :: Reachable(c, s) && 1 in s.txs && Enabled(c, s, Insert(1)) && 1 !in Do(c, s, Insert(1)).txs
  {
    var mine := Tx(q, e, second, Cleared(None, 0), true, []);
    StartIsReachable(c);
    ReachesHolding(c, EMPTY, 1, q, e, second);
    ReachesCleared(c, EMPTY, 1, q, e, second);
    var s := With(EMPTY, 1, mine);
    ReachesHolding(c, s, 0, p, e, first);
    ReachesCleared(c, s, 0, p, e, first);
    ReachesFirstRow(c, s, 0, p, e, first);
    var s' :| Reachable(c, s') && s'.txs == s.txs - {0} && |Rows(s', e)| == 1;
    assert s'.txs[1] == mine;
    ReachableInv(c, s');
    StaleInsertAborts(c, s', 1);
  }

  /** No insert of any run waits or violates a constraint exactly when all processes derive
      the same lock id for every endpoint. */
  lemma {:induction false} NeverClashesIffSharedLocks(c: Config)
    ensures NeverClashes(c) <==> SharedLocks(c)
  {
    if SharedLocks(c) {
      forall s, t | Reachable(c, s) && t in s.txs && s.txs[t].phase.Cleared? ensures !InsertMeetsAnother(c, s, t) {
        var run, acts :| IsRun(c, run, acts) && run[|run| - 1] == s;
        OneProcessNeverClashes(c, run, acts, |run| - 1, t);
      }
    } else {
      var p, q, e :| c.lockOf(p, e) != c.lockOf(q, e);
      TwoProcessesCanClash(c, p, q, e, Dict([]), Dict([]));
      var s :| Reachable(c, s) && 1 in s.txs && Enabled(c, s, Insert(1)) && 1 !in Do(c, s, Insert(1)).txs;
      assert InsertMeetsAnother(c, s, 1);
    }
  }

  /** With ids taken from each process's own string hash, processes that hash strings alike
      never meet; two whose hashes of one endpoint reduce to different ids do. */
  lemma {:induction false} HashesDecideClashes(c: Config, hashOf: nat -> (string -> int))
    requires LocksByHash(c, hashOf)
    ensures (forall p, q, e :: hashOf(p)(e) == hashOf(q)(e)) ==> NeverClashes(c)
    ensures forall p, q, e | ProcessLockId(hashOf(p), e) != ProcessLockId(hashOf(q), e) :: !NeverClashes(c)
  {
    NeverClashesIffSharedLocks(c);
    if forall p, q, e :: hashOf(p)(e) == hashOf(q)(e) {
      forall p, q, e ensures c.lockOf(p, e) == c.lockOf(q, e) {
        assert hashOf(p)(e) == hashOf(q)(e);
      }
    }
    forall p, q, e | ProcessLockId(hashOf(p), e) != ProcessLockId(hashOf(q), e) ensures !NeverClashes(c) {
      assert c.lockOf(p, e) != c.lockOf(q, e);
    }
  }

  /** So salting the hash by the process is enough for calls to meet. */
  lemma {:induction false} SaltedHashesClash(c: Config)
    requires LocksByHash(c, p => (e: string) => p + |e|)
    ensures !NeverClashes(c)
  {
    var hashOf: nat -> (string -> int) := p => (e: string) => p + |e|;
    assert ProcessLockId(hashOf(0), "") == 0 && ProcessLockId(hashOf(1), "") == 1;
    HashesDecideClashes(c, hashOf);
  }
}
