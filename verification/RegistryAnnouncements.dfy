/** The transactional outbox over runs: each version with a predecessor was published by
    one transaction, whose own select, between its begin and its commit, read the
    subscriptions that the outbox rows of the version answer to. */
module RegistryAnnouncements {
  import opened Texts
  import opened Severities
  import opened Classifier
  import opened RegistryModel
  import opened RegistryChain
  import opened RegistryOutbox

  predicate Begins(a: Action, t: nat) { a.Begin? && a.t == t }

  /** The transaction `t` that runs at step `i` began at step `b`. */
  ghost predicate BeganAt(acts: seq<Action>, i: nat, t: nat, b: nat) {
    b < i <= |acts| && Begins(acts[b], t) && forall x | b < x < i :: !Begins(acts[x], t)
  }

  /** At step `i`, `t` is the transaction begun at `b` on `e`, and has read the
      subscriptions at step `k` if it is enqueuing. */
  ghost predicate TracedBack(run: seq<State>, acts: seq<Action>, i: nat, t: nat, b: nat, k: nat)
    requires |run| == |acts| + 1 && i < |run| && t in run[i].txs
  {
    var tx := run[i].txs[t];
    && BeganAt(acts, i, t, b) && acts[b].endpoint == tx.endpoint && acts[b].schema == tx.schema
    && (tx.phase.Enqueuing? ==> b < k < i && acts[k] == Select(t) && run[k].subs == tx.phase.seen)
    && (Pending(tx) ==> PendingRow(tx).schema == tx.schema)
  }

  ghost predicate TxTraced(run: seq<State>, acts: seq<Action>, i: nat, t: nat)
    requires |run| == |acts| + 1 && i < |run| && t in run[i].txs
  {
    exists b: nat, k: nat :: TracedBack(run, acts, i, t, b, k)
  }

  /** Version `v` of `e` was published by the commit of `t` at step `m`, the same `t` that
      began at step `b` with the version's schema and selected subscriptions at `k`. */
  ghost predicate PublishedBy(run: seq<State>, acts: seq<Action>, e: string, v: nat, t: nat, b: nat, k: nat, m: nat)
    requires |run| == |acts| + 1
  {
    && b < k < m < |acts| && BeganAt(acts, m, t, b) && acts[b].endpoint == e
    && acts[k] == Select(t) && acts[m] == Commit(t)
    && |Rows(run[m], e)| == v - 1 && |Rows(run[m + 1], e)| == v && Rows(run[m + 1], e)[v - 1].schema == acts[b].schema
  }

  ghost predicate VersionTraced(run: seq<State>, acts: seq<Action>, i: nat, e: string, v: nat)
    requires |run| == |acts| + 1 && i < |run|
  {
    exists t: nat, b: nat, k: nat, m: nat ::
      PublishedBy(run, acts, e, v, t, b, k, m) && m < i && run[k].subs == SeenFor(run[i], e, v)
  }

  // ---- Transactions ----

  /** What a step does to a transaction that it does not begin. */
  ghost predicate TxFollows(s: State, a: Action, tx: Tx, tx': Tx, t: nat) {
    && tx'.endpoint == tx.endpoint && tx'.schema == tx.schema
    && (tx'.phase.Enqueuing? ==> (a == Select(t) && tx'.phase.seen == s.subs) || (tx.phase.Enqueuing? && tx'.phase.seen == tx.phase.seen))
    && (Pending(tx') ==> PendingRow(tx').schema == if Pending(tx) then PendingRow(tx).schema else tx.schema)
  }

  lemma {:induction false} QuietTxFollows(c: Config, s: State, a: Action, t: nat)
    requires Enabled(c, s, a) && !Begins(a, t) && t in Do(c, s, a).txs && !a.Commit?
    ensures t in s.txs && TxFollows(s, a, s.txs[t], Do(c, s, a).txs[t], t)
  {
    match a
    case Insert(_) =>
    case Reclassify(_) =>
    case Enqueue(_) =>
    case Select(_) =>
    case _ =>
  }

  lemma {:induction false} CommitTxFollows(c: Config, s: State, a: Action, t: nat)
    requires Enabled(c, s, a) && a.Commit? && t in Do(c, s, a).txs
    ensures t in s.txs && TxFollows(s, a, s.txs[t], Do(c, s, a).txs[t], t)
  {
  }

  lemma {:induction false} NextTxTraced(c: Config, run: seq<State>, acts: seq<Action>, i: nat, t: nat)
    requires |run| == |acts| + 1 && i < |acts| && Enabled(c, run[i], acts[i]) && run[i + 1] == Do(c, run[i], acts[i])
    requires t in run[i + 1].txs && (t in run[i].txs ==> TxTraced(run, acts, i, t))
    ensures TxTraced(run, acts, i + 1, t)
  {
    var s, a := run[i], acts[i];
    if Begins(a, t) {
      assert TracedBack(run, acts, i + 1, t, i, 0);
    } else {
      if a.Commit? { CommitTxFollows(c, s, a, t); } else { QuietTxFollows(c, s, a, t); }
      var b: nat, k: nat :| TracedBack(run, acts, i, t, b, k);
      TraceFollows(run, acts, i, t, b, k);
    }
  }

  lemma {:induction false} TraceFollows(run: seq<State>, acts: seq<Action>, i: nat, t: nat, b: nat, k: nat)
    requires |run| == |acts| + 1 && i < |acts| && t in run[i].txs && t in run[i + 1].txs && !Begins(acts[i], t)
    requires TxFollows(run[i], acts[i], run[i].txs[t], run[i + 1].txs[t], t) && TracedBack(run, acts, i, t, b, k)
    ensures TxTraced(run, acts, i + 1, t)
  {
    assert BeganAt(acts, i + 1, t, b);
    if acts[i] == Select(t) {
      assert TracedBack(run, acts, i + 1, t, b, i) || TracedBack(run, acts, i + 1, t, b, k);
    } else {
      assert TracedBack(run, acts, i + 1, t, b, k);
    }
  }

  lemma {:induction false} RunsTraceTxs(c: Config, run: seq<State>, acts: seq<Action>, i: nat, t: nat)
    requires IsRun(c, run, acts) && i < |run| && t in run[i].txs
    ensures TxTraced(run, acts, i, t)
    decreases i
  {
    if i > 0 {
      if t in run[i - 1].txs { RunsTraceTxs(c, run, acts, i - 1, t); }
      assert Enabled(c, run[i - 1], acts[i - 1]) && run[i] == Do(c, run[i - 1], acts[i - 1]);
      NextTxTraced(c, run, acts, i - 1, t);
    }
  }

  // ---- Versions ----

  /** Only the commit of a pending row touches tables and what selects have read. */
  lemma {:induction false} QuietStepPublishesNothing(c: Config, s: State, a: Action)
    requires Enabled(c, s, a) && !(a.Commit? && Pending(s.txs[a.t]))
    ensures Do(c, s, a).tables == s.tables && Do(c, s, a).seenAt == s.seenAt
  {
  }

  lemma {:induction false} CommitPublishesOne(c: Config, s: State, t: nat)
    requires Inv(c, s) && t in s.txs && MayCommit(c, s.txs[t]) && Pending(s.txs[t])
    ensures var s', tx := DoCommit(c, s, t), s.txs[t];
      var row := PendingRow(tx);
      && row.version == |Rows(s, tx.endpoint)| + 1
      && s'.tables == s.tables[tx.endpoint := Publish(Rows(s, tx.endpoint), tx.phase.cleared, row)]
      && s'.seenAt == s.seenAt[(tx.endpoint, row.version) := if tx.phase.Enqueuing? then tx.phase.seen else []]
      && (row.version > 1 ==> tx.phase.Enqueuing?)
  {
    assert TxOk(c, Rows(s, s.txs[t].endpoint), s.nextId, s.txs[t]);
  }

  lemma {:induction false} PublishTraces(c: Config, run: seq<State>, acts: seq<Action>, i: nat, t: nat)
    requires |run| == |acts| + 1 && i < |acts| && Inv(c, run[i])
    requires t in run[i].txs && MayCommit(c, run[i].txs[t]) && Pending(run[i].txs[t]) && TxTraced(run, acts, i, t)
    requires acts[i] == Commit(t) && run[i + 1] == DoCommit(c, run[i], t)
    ensures var e := run[i].txs[t].endpoint;
      var v := |Rows(run[i], e)| + 1;
      v > 1 ==> VersionTraced(run, acts, i + 1, e, v)
  {
    var tx := run[i].txs[t];
    CommitPublishesOne(c, run[i], t);
    var b: nat, k: nat :| TracedBack(run, acts, i, t, b, k);
    var v := |Rows(run[i], tx.endpoint)| + 1;
    if v > 1 {
      assert PublishedBy(run, acts, tx.endpoint, v, t, b, k, i);
    }
  }

  lemma {:induction false} VersionStaysTraced(run: seq<State>, acts: seq<Action>, i: nat, e: string, v: nat)
    requires |run| == |acts| + 1 && i < |acts| && VersionTraced(run, acts, i, e, v)
    requires SeenFor(run[i + 1], e, v) == SeenFor(run[i], e, v)
    ensures VersionTraced(run, acts, i + 1, e, v)
  {
    var t: nat, b: nat, k: nat, m: nat :| PublishedBy(run, acts, e, v, t, b, k, m) && m < i && run[k].subs == SeenFor(run[i], e, v);
    assert m < i + 1 && run[k].subs == SeenFor(run[i + 1], e, v);
  }

  /** Version `v` of the next state is one of this state with what was read for it, or the
      one that a commit of a pending row publishes. */
  lemma {:induction false} VersionsOfNext(c: Config, s: State, a: Action, e: string, v: nat)
    requires Inv(c, s) && Enabled(c, s, a) && v <= |Rows(Do(c, s, a), e)|
    ensures || (a.Commit? && Pending(s.txs[a.t]) && e == s.txs[a.t].endpoint && v == |Rows(s, e)| + 1)
            || (v <= |Rows(s, e)| && SeenFor(Do(c, s, a), e, v) == SeenFor(s, e, v))
  {
    if a.Commit? && Pending(s.txs[a.t]) {
      CommitPublishesOne(c, s, a.t);
    } else {
      QuietStepPublishesNothing(c, s, a);
    }
  }

  ghost predicate Traced(run: seq<State>, acts: seq<Action>, i: nat, e: string, v: nat)
    requires |run| == |acts| + 1 && i < |run|
  {
    1 < v <= |Rows(run[i], e)| ==> VersionTraced(run, acts, i, e, v)
  }

  ghost predicate StaysTraced(run: seq<State>, acts: seq<Action>, i: nat, e: string, v: nat)
    requires |run| == |acts| + 1 && i < |acts|
  {
    Traced(run, acts, i, e, v) ==> Traced(run, acts, i + 1, e, v)
  }

  lemma {:induction false} NextVersionTraced(c: Config, run: seq<State>, acts: seq<Action>, i: nat, e: string, v: nat)
    requires |run| == |acts| + 1 && i < |acts| && Inv(c, run[i])
    requires Enabled(c, run[i], acts[i]) && run[i + 1] == Do(c, run[i], acts[i])
    requires acts[i].Commit? ==> TxTraced(run, acts, i, acts[i].t)
    ensures StaysTraced(run, acts, i, e, v)
  {
    var s, a := run[i], acts[i];
    if 1 < v <= |Rows(run[i + 1], e)| && Traced(run, acts, i, e, v) {
      VersionsOfNext(c, s, a, e, v);
      if a.Commit? && Pending(s.txs[a.t]) && e == s.txs[a.t].endpoint && v == |Rows(s, e)| + 1 {
        PublishTraces(c, run, acts, i, a.t);
      } else {
        VersionStaysTraced(run, acts, i, e, v);
      }
    }
  }

  lemma {:induction false} StepStaysTraced(c: Config, run: seq<State>, acts: seq<Action>, i: nat, e: string, v: nat)
    requires IsRun(c, run, acts) && i < |acts|
    ensures StaysTraced(run, acts, i, e, v)
  {
    RunsKeepInv(c, run, acts, i);
    assert Enabled(c, run[i], acts[i]) && run[i + 1] == Do(c, run[i], acts[i]);
    if acts[i].Commit? { RunsTraceTxs(c, run, acts, i, acts[i].t); }
    NextVersionTraced(c, run, acts, i, e, v);
  }

  lemma {:induction false} TracedToTheEnd(run: seq<State>, acts: seq<Action>, i: nat, e: string, v: nat)
    requires |run| == |acts| + 1 && i < |run| && Rows(run[0], e) == []
    requires forall j: nat | j < |acts| :: StaysTraced(run, acts, j, e, v)
    ensures Traced(run, acts, i, e, v)
    decreases i
  {
    if i > 0 {
      TracedToTheEnd(run, acts, i - 1, e, v);
      assert StaysTraced(run, acts, i - 1, e, v);
    }
  }

  lemma {:induction false} RunsTraceVersions(c: Config, run: seq<State>, acts: seq<Action>, i: nat, e: string, v: nat)
    requires IsRun(c, run, acts) && i < |run| && 1 < v <= |Rows(run[i], e)|
    ensures VersionTraced(run, acts, i, e, v)
  {
    forall j: nat | j < |acts| ensures StaysTraced(run, acts, j, e, v) { StepStaysTraced(c, run, acts, j, e, v); }
    TracedToTheEnd(run, acts, i, e, v);
    assert Traced(run, acts, i, e, v);
  }

  // ---- The transactional outbox ----

  /** How many outbox rows tell subscription `id` of version `v`. */
  function Told(s: State, e: string, v: nat, id: nat): nat { multiset(s.outbox)[OutboxRow(e, v, id)] }

  function ClassOf(s: State, e: string, v: nat): Severity
    requires 1 <= v <= |Rows(s, e)|
  {
    Rows(s, e)[v - 1].cls
  }

  /** Before step `m` nobody is told of version `v`, and at `i` exactly those are, once
      each, who wanted it at `k`. */
  ghost predicate ToldAsSelected(run: seq<State>, i: nat, k: nat, m: nat, e: string, v: nat)
    requires i < |run| && k < |run| && m < |run| && 1 <= v <= |Rows(run[i], e)|
  {
    forall id: nat ::
      && Told(run[m], e, v, id) == 0
      && Told(run[i], e, v, id) == if Wanted(run[k].subs, id, e, v, ClassOf(run[i], e, v)) then 1 else 0
  }

  lemma {:induction false} CountsAsSelected(run: seq<State>, i: nat, k: nat, m: nat, e: string, v: nat)
    requires i < |run| && k < |run| && m < |run| && 1 < v <= |Rows(run[i], e)| && |Rows(run[m], e)| < v
    requires OutboxInv(run[i]) && OutboxInv(run[m])
    requires DistinctSubs(run[k].subs) && run[k].subs == SeenFor(run[i], e, v)
    ensures ToldAsSelected(run, i, k, m, e, v)
  {
    forall id: nat ensures Told(run[m], e, v, id) == 0
      && Told(run[i], e, v, id) == if Wanted(run[k].subs, id, e, v, ClassOf(run[i], e, v)) then 1 else 0
    {
      CountsOf(run[i], e, v, id);
      CountsOf(run[m], e, v, id);
    }
  }

  /** Over any run with crashes: a committed version with a predecessor was published by
      one commit, before which it had no outbox row; and since, it has exactly one for
      every subscription that the select of that very transaction, between its begin and
      this commit, found active, allowing the version, and with a threshold at most the
      version's class, and none for any other. First versions and versions never
      committed have none. */
  lemma {:induction false} OutboxIsTransactional(c: Config, run: seq<State>, acts: seq<Action>, i: nat, e: string, v: nat)
    requires IsRun(c, run, acts) && !c.inline && i < |run|
    ensures if 1 < v <= |Rows(run[i], e)| then
        exists t: nat, b: nat, k: nat, m: nat ::
          PublishedBy(run, acts, e, v, t, b, k, m) && m < i && ToldAsSelected(run, i, k, m, e, v)
      else forall id: nat :: Told(run[i], e, v, id) == 0
  {
    RunsKeepOutbox(c, run, acts, i);
    if 1 < v <= |Rows(run[i], e)| {
      RunsTraceVersions(c, run, acts, i, e, v);
      var t: nat, b: nat, k: nat, m: nat :| PublishedBy(run, acts, e, v, t, b, k, m) && m < i && run[k].subs == SeenFor(run[i], e, v);
      RunsKeepSubsDistinct(c, run, acts, k);
      RunsKeepOutbox(c, run, acts, m);
      CountsAsSelected(run, i, k, m, e, v);
    } else {
      forall id: nat ensures Told(run[i], e, v, id) == 0 { CountsOf(run[i], e, v, id); }
    }
  }

  /** The subscription `id` wants the version at every moment of the transaction. */
  ghost predicate WantedThroughout(run: seq<State>, b: nat, m: nat, id: nat, e: string, v: nat, cls: Severity)
    requires m < |run|
  {
    forall x | b < x <= m :: Wanted(run[x].subs, id, e, v, cls)
  }

  ghost predicate NeverWanted(run: seq<State>, b: nat, m: nat, id: nat, e: string, v: nat, cls: Severity)
    requires m < |run|
  {
    forall x | b < x <= m :: !Wanted(run[x].subs, id, e, v, cls)
  }

  /** So a subscription that matches throughout the transaction that published a version is
      told of it exactly once, and one that matches at no moment of it never. */
  lemma {:induction false} MatchingThroughoutIsTold(c: Config, run: seq<State>, acts: seq<Action>, i: nat, e: string, v: nat)
    requires IsRun(c, run, acts) && !c.inline && i < |run| && 1 < v <= |Rows(run[i], e)|
    ensures exists t: nat, b: nat, k: nat, m: nat | PublishedBy(run, acts, e, v, t, b, k, m) && m < i :: forall id: nat ::
      && (WantedThroughout(run, b, m, id, e, v, ClassOf(run[i], e, v)) ==> Told(run[i], e, v, id) == 1)
      && (NeverWanted(run, b, m, id, e, v, ClassOf(run[i], e, v)) ==> Told(run[i], e, v, id) == 0)
  {
    OutboxIsTransactional(c, run, acts, i, e, v);
    var t: nat, b: nat, k: nat, m: nat :|
      PublishedBy(run, acts, e, v, t, b, k, m) && m < i && ToldAsSelected(run, i, k, m, e, v);
    assert b < k <= m;
  }
}
