/** Reachable registry states, and the runs of one call that nobody interrupts. */
module RegistryRuns {
  import opened Texts
  import opened Severities
  import opened Classifier
  import opened RegistryModel
  import opened RegistryChain

  ghost predicate Reachable(c: Config, s: State) {
    exists run, acts :: IsRun(c, run, acts) && run[|run| - 1] == s
  }

  lemma {:induction false} StartIsReachable(c: Config)
    ensures Reachable(c, EMPTY)
  {
    assert IsRun(c, [EMPTY], []) && [EMPTY][|[EMPTY]| - 1] == EMPTY;
  }

  lemma {:induction false} ReachesNext(c: Config, s: State, a: Action)
    requires Reachable(c, s) && Enabled(c, s, a)
    ensures Reachable(c, Do(c, s, a))
  {
    var run, acts :| IsRun(c, run, acts) && run[|run| - 1] == s;
    var run', acts' := run + [Do(c, s, a)], acts + [a];
    forall i | 0 <= i < |acts'| ensures Enabled(c, run'[i], acts'[i]) && run'[i + 1] == Do(c, run'[i], acts'[i]) {
      if i < |acts| { assert run'[i] == run[i] && run'[i + 1] == run[i + 1] && acts'[i] == acts[i]; }
    }
    assert IsRun(c, run', acts');
  }

  lemma {:induction false} ReachableInv(c: Config, s: State)
    requires Reachable(c, s)
    ensures Inv(c, s)
  {
    var run, acts :| IsRun(c, run, acts) && run[|run| - 1] == s;
    RunsKeepInv(c, run, acts, |run| - 1);
  }

  function With(s: State, t: nat, tx: Tx): State { s.(txs := s.txs[t := tx]) }

  /** No transaction in flight holds this lock id. */
  ghost predicate LockFree(c: Config, s: State, p: nat, e: string) {
    forall u | u in s.txs && s.txs[u].locked :: c.lockOf(s.txs[u].process, s.txs[u].endpoint) != c.lockOf(p, e)
  }

  /** A call whose fingerprint is new takes the lock. */
  lemma {:induction false} ReachesHolding(c: Config, s: State, t: nat, p: nat, e: string, schema: Schema)
    requires Reachable(c, s) && t !in s.txs && FindFp(Rows(s, e), c.fpOf(schema)).None? && LockFree(c, s, p, e)
    ensures Reachable(c, With(s, t, Tx(p, e, schema, Holding, true, [])))
  {
    var s1 := With(s, t, Tx(p, e, schema, Looking, false, []));
    ReachesNext(c, s, Begin(t, p, e, schema));
    var s2 := With(s, t, Tx(p, e, schema, Waiting, false, []));
    ReachesNext(c, s1, FastLookup(t));
    assert Do(c, s1, FastLookup(t)) == s2;
    ReachesNext(c, s2, Lock(t));
    assert Do(c, s2, Lock(t)) == With(s, t, Tx(p, e, schema, Holding, true, []));
  }

  function ClearCount(rows: seq<Row>): nat { if FindCurrent(rows).None? then 0 else |rows| }

  lemma {:induction false} ReachesRead(c: Config, s: State, t: nat, p: nat, e: string, schema: Schema)
    requires Reachable(c, With(s, t, Tx(p, e, schema, Holding, true, [])))
    ensures Reachable(c, With(s, t, Tx(p, e, schema, SawCurrent(FindCurrent(Rows(s, e))), true, [])))
  {
    var s1 := With(s, t, Tx(p, e, schema, Holding, true, []));
    ReachesNext(c, s1, ReadCurrent(t));
    assert Do(c, s1, ReadCurrent(t)) == With(s, t, Tx(p, e, schema, SawCurrent(FindCurrent(Rows(s, e))), true, []));
  }

  lemma {:induction false} ReachesMissed(c: Config, s: State, t: nat, p: nat, e: string, schema: Schema, cur: Option<Row>)
    requires FindFp(Rows(s, e), c.fpOf(schema)).None? && Reachable(c, With(s, t, Tx(p, e, schema, SawCurrent(cur), true, [])))
    ensures Reachable(c, With(s, t, Tx(p, e, schema, Missed(cur), true, [])))
  {
    var s2 := With(s, t, Tx(p, e, schema, SawCurrent(cur), true, []));
    ReachesNext(c, s2, Recheck(t));
    assert Do(c, s2, Recheck(t)) == With(s, t, Tx(p, e, schema, Missed(cur), true, []));
  }

  /** It then reads the current row, looks again, and clears the flags. */
  lemma {:induction false} ReachesCleared(c: Config, s: State, t: nat, p: nat, e: string, schema: Schema)
    requires FindFp(Rows(s, e), c.fpOf(schema)).None? && Reachable(c, With(s, t, Tx(p, e, schema, Holding, true, [])))
    ensures Reachable(c, With(s, t, Tx(p, e, schema, Cleared(FindCurrent(Rows(s, e)), ClearCount(Rows(s, e))), true, [])))
  {
    var cur := FindCurrent(Rows(s, e));
    ReachesRead(c, s, t, p, e, schema);
    ReachesMissed(c, s, t, p, e, schema, cur);
    var s3 := With(s, t, Tx(p, e, schema, Missed(cur), true, []));
    ReachesNext(c, s3, Clear(t));
    assert Do(c, s3, Clear(t)) == With(s, t, Tx(p, e, schema, Cleared(cur, ClearCount(Rows(s, e))), true, []));
  }
}
