/** Registering an endpoint: look it up, insert it unless another call has, look it up
    again. Any number of calls interleave over the UNIQUE key of the endpoint table. */
module EndpointRows {
  import opened Texts

  datatype Key = Key(namespace: string, service: string, httpMethod: string, route: string)

  datatype Phase = Looking | Missing | Inserted | Ready(id: nat)

  /** A call in flight; `own` is the row it has inserted and not committed. */
  datatype Tx = Tx(key: Key, phase: Phase, own: Option<nat>)

  datatype State = State(rows: map<Key, nat>, nextId: nat, txs: map<nat, Tx>, answers: seq<(Key, nat)>)

  datatype Action =
    | Begin(t: nat, key: Key)
    | Select(t: nat)
    | Insert(t: nat)
    | Reselect(t: nat)
    | Commit(t: nat)
    | Abort(t: nat)

  const EMPTY: State := State(map[], 0, map[], [])

  /** Another call has inserted the key and not committed: ON CONFLICT waits for it. */
  ghost predicate Waits(s: State, t: nat)
    requires t in s.txs
  {
    exists u | u in s.txs && u != t :: s.txs[u].key == s.txs[t].key && s.txs[u].own.Some?
  }

  ghost predicate Enabled(s: State, a: Action) {
    match a
    case Begin(t, _) => t !in s.txs
    case Select(t) => t in s.txs && s.txs[t].phase.Looking?
    case Insert(t) => t in s.txs && s.txs[t].phase.Missing? && !Waits(s, t)
    case Reselect(t) => t in s.txs && s.txs[t].phase.Inserted?
    case Commit(t) => t in s.txs && s.txs[t].phase.Ready?
    case Abort(t) => t in s.txs
  }

  /** The row a statement of a call sees: its own, or the committed one. */
  function Visible(s: State, tx: Tx): Option<nat> {
    if tx.own.Some? then tx.own else if tx.key in s.rows then Some(s.rows[tx.key]) else None
  }

  function Put(s: State, t: nat, tx: Tx): State { s.(txs := s.txs[t := tx]) }

  function Do(s: State, a: Action): State
    requires Enabled(s, a)
  {
    match a
    case Begin(t, key) => Put(s, t, Tx(key, Looking, None))
    case Select(t) =>
      var seen := Visible(s, s.txs[t]);
      Put(s, t, s.txs[t].(phase := if seen.Some? then Ready(seen.value) else Missing))
    case Insert(t) =>
      if s.txs[t].key in s.rows then Put(s, t, s.txs[t].(phase := Inserted))
      else Put(s, t, s.txs[t].(phase := Inserted, own := Some(s.nextId))).(nextId := s.nextId + 1)
    case Reselect(t) =>
      var seen := Visible(s, s.txs[t]);
      if seen.Some? then Put(s, t, s.txs[t].(phase := Ready(seen.value))) else s.(txs := s.txs - {t})
    case Commit(t) =>
      var tx := s.txs[t];
      s.(rows := if tx.own.Some? then s.rows[tx.key := tx.own.value] else s.rows,
         txs := s.txs - {t}, answers := s.answers + [(tx.key, tx.phase.id)])
    case Abort(t) => s.(txs := s.txs - {t})
  }

  ghost predicate TxOk(s: State, tx: Tx) {
    && (tx.own.Some? ==> tx.key !in s.rows && tx.own.value < s.nextId)
    && match tx.phase
       case Looking => tx.own.None?
       case Missing => tx.own.None?
       case Inserted => Visible(s, tx).Some?
       case Ready(id) => Visible(s, tx) == Some(id)
  }

  ghost predicate Inv(s: State) {
    && (forall t | t in s.txs :: TxOk(s, s.txs[t]))
    && (forall t, u | t in s.txs && u in s.txs && t != u && s.txs[t].own.Some? && s.txs[u].own.Some? ::
          s.txs[t].key != s.txs[u].key && s.txs[t].own != s.txs[u].own)
    && (forall k, l | k in s.rows && l in s.rows && k != l :: s.rows[k] != s.rows[l])
    && (forall k | k in s.rows :: s.rows[k] < s.nextId)
    && (forall k, t | k in s.rows && t in s.txs && s.txs[t].own.Some? :: s.txs[t].own.value != s.rows[k])
    && (forall i | 0 <= i < |s.answers| :: s.answers[i].0 in s.rows && s.rows[s.answers[i].0] == s.answers[i].1)
  }

  lemma {:induction false} CommitKeepsInv(s: State, t: nat)
    requires Inv(s) && t in s.txs && s.txs[t].phase.Ready?
    ensures Inv(Do(s, Commit(t)))
  {
    var s' := Do(s, Commit(t));
    assert TxOk(s, s.txs[t]);
    forall u | u in s'.txs ensures TxOk(s', s'.txs[u]) { assert TxOk(s, s.txs[u]); }
  }

  lemma {:induction false} InsertKeepsInv(s: State, t: nat)
    requires Inv(s) && Enabled(s, Insert(t))
    ensures Inv(Do(s, Insert(t)))
  {
    var s' := Do(s, Insert(t));
    assert TxOk(s, s.txs[t]);
    forall u | u in s'.txs ensures TxOk(s', s'.txs[u]) {
      if u != t { assert TxOk(s, s.txs[u]); }
    }
  }

  /** Only call `t` changes, and gets no row by it. */
  ghost predicate OwnOnly(s: State, s': State, t: nat) {
    && s'.rows == s.rows && s'.nextId == s.nextId && s'.answers == s.answers
    && (forall u | u != t :: (u in s'.txs <==> u in s.txs) && (u in s.txs ==> s'.txs[u] == s.txs[u]))
    && (t in s'.txs && s'.txs[t].own.Some? ==> t in s.txs && s'.txs[t].own == s.txs[t].own && s'.txs[t].key == s.txs[t].key)
  }

  lemma {:induction false} OwnStepIsLocal(s: State, a: Action)
    requires Enabled(s, a) && !a.Commit? && !a.Insert? && (a.t in s.txs ==> TxOk(s, s.txs[a.t]))
    ensures OwnOnly(s, Do(s, a), a.t) && (a.t in Do(s, a).txs ==> TxOk(Do(s, a), Do(s, a).txs[a.t]))
  {
  }

  lemma {:induction false} OwnOnlyKeepsInv(s: State, s': State, t: nat)
    requires Inv(s) && OwnOnly(s, s', t) && (t in s'.txs ==> TxOk(s', s'.txs[t]))
    ensures Inv(s')
  {
    forall u | u in s'.txs && u != t ensures TxOk(s', s'.txs[u]) { assert TxOk(s, s.txs[u]); }
  }

  lemma {:induction false} OwnStepKeepsInv(s: State, a: Action)
    requires Inv(s) && Enabled(s, a) && !a.Commit? && !a.Insert?
    ensures Inv(Do(s, a))
  {
    OwnStepIsLocal(s, a);
    OwnOnlyKeepsInv(s, Do(s, a), a.t);
  }

  ghost predicate IsRun(run: seq<State>, acts: seq<Action>) {
    && |run| == |acts| + 1 && run[0] == EMPTY
    && forall i | 0 <= i < |acts| :: Enabled(run[i], acts[i]) && run[i + 1] == Do(run[i], acts[i])
  }

  lemma {:induction false} RunsKeepInv(run: seq<State>, acts: seq<Action>, i: nat)
    requires IsRun(run, acts) && i < |run|
    ensures Inv(run[i])
    decreases i
  {
    if i > 0 {
      RunsKeepInv(run, acts, i - 1);
      assert Enabled(run[i - 1], acts[i - 1]);
      match acts[i - 1]
      case Commit(t) => CommitKeepsInv(run[i - 1], t);
      case Insert(t) => InsertKeepsInv(run[i - 1], t);
      case a => OwnStepKeepsInv(run[i - 1], a);
    }
  }

  /** In every state of every run: all committed calls on one key were answered with one
      row id, calls on different keys with different ones, and the second look of a call
      finds a row, whoever inserted it. */
  lemma {:induction false} OneIdPerEndpoint(run: seq<State>, acts: seq<Action>, i: nat)
    requires IsRun(run, acts) && i < |run|
    ensures forall j, k | 0 <= j < |run[i].answers| && 0 <= k < |run[i].answers| ::
      run[i].answers[j].0 == run[i].answers[k].0 <==> run[i].answers[j].1 == run[i].answers[k].1
    ensures forall t | t in run[i].txs && run[i].txs[t].phase.Inserted? :: Visible(run[i], run[i].txs[t]).Some?
  {
    RunsKeepInv(run, acts, i);
    forall t | t in run[i].txs && run[i].txs[t].phase.Inserted? ensures Visible(run[i], run[i].txs[t]).Some? {
      assert TxOk(run[i], run[i].txs[t]);
    }
  }
}
