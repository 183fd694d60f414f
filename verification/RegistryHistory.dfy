/** The version table refines a simple list: the distinct fingerprints of an
    endpoint in the order in which calls first committed them. */
module RegistryHistory {
  import opened Texts
  import opened Severities
  import opened Classifier
  import opened RegistryModel
  import opened RegistryChain

  // ---- The simple list ----

  /** First occurrences only, in order. */
  function FirstSeen(fps: seq<string>): seq<string> {
    if fps == [] then []
    else
      var n := |fps| - 1;
      var seen := FirstSeen(fps[..n]);
      if fps[n] in seen then seen else seen + [fps[n]]
  }

  function FirstIndex(fps: seq<string>, x: string): (i: nat)
    requires x in fps
    ensures i < |fps| && fps[i] == x && forall k | 0 <= k < i :: fps[k] != x
  {
    if fps[0] == x then 0 else FirstIndex(fps[1..], x) + 1
  }

  lemma {:induction false} FirstIndexOfPrefix(fps: seq<string>, n: nat, x: string)
    requires n <= |fps| && x in fps[..n]
    ensures FirstIndex(fps, x) == FirstIndex(fps[..n], x)
  {
    var i, j := FirstIndex(fps, x), FirstIndex(fps[..n], x);
    assert fps[j] == x && i <= j;
  }

  ghost predicate InFirstOrder(fps: seq<string>, r: seq<string>)
    requires forall i | 0 <= i < |r| :: r[i] in fps
  {
    forall i, j | 0 <= i < j < |r| :: FirstIndex(fps, r[i]) < FirstIndex(fps, r[j])
  }

  /** The list has exactly the fingerprints committed, each once, by first commit. */
  lemma {:induction false} FirstSeenIsDeduplication(fps: seq<string>)
    ensures forall x :: x in FirstSeen(fps) <==> x in fps
    ensures InFirstOrder(fps, FirstSeen(fps))
  {
    if fps != [] {
      var n := |fps| - 1;
      var before, r := FirstSeen(fps[..n]), FirstSeen(fps);
      FirstSeenIsDeduplication(fps[..n]);
      assert fps == fps[..n] + [fps[n]];
      forall x | x in fps[..n] ensures FirstIndex(fps, x) == FirstIndex(fps[..n], x) {
        FirstIndexOfPrefix(fps, n, x);
      }
      forall i, j | 0 <= i < j < |r| ensures FirstIndex(fps, r[i]) < FirstIndex(fps, r[j]) {
        assert r[i] == before[i] && r[i] in fps[..n];
        if j < |before| { assert r[j] == before[j] && r[j] in fps[..n]; }
        else { NewIsLast(fps, n, r[i]); }
      }
    }
  }

  lemma {:induction false} NewIsLast(fps: seq<string>, n: nat, x: string)
    requires |fps| == n + 1 && fps[n] !in fps[..n] && x in fps[..n]
    ensures FirstIndex(fps, x) < n && FirstIndex(fps, fps[n]) == n
  {
    FirstIndexOfPrefix(fps, n, x);
    assert forall k | 0 <= k < n :: fps[k] == fps[..n][k];
  }

  // ---- What the registry keeps ----

  function Fingerprints(rows: seq<Row>): (r: seq<string>)
    ensures |r| == |rows| && forall i | 0 <= i < |rows| :: r[i] == rows[i].fp
  {
    seq(|rows|, i requires 0 <= i < |rows| => rows[i].fp)
  }

  /** The fingerprints submitted to an endpoint, in commit order. */
  function Submitted(calls: seq<Call>, e: string): seq<string> {
    if calls == [] then []
    else
      var n := |calls| - 1;
      Submitted(calls[..n], e) + (if calls[n].endpoint == e then [calls[n].fp] else [])
  }

  predicate SeenBefore(calls: seq<Call>, k: nat)
    requires k < |calls|
  {
    exists j | 0 <= j < k :: calls[j].endpoint == calls[k].endpoint && calls[j].fp == calls[k].fp
  }

  /** The call was answered with its fingerprint's position in the table. */
  predicate Answered(s: State, call: Call) {
    var rows := Rows(s, call.endpoint);
    1 <= call.version <= |rows| && rows[call.version - 1].fp == call.fp
  }

  ghost predicate TableRefines(s: State, e: string) {
    Fingerprints(Rows(s, e)) == FirstSeen(Submitted(s.calls, e))
  }

  ghost predicate HistoryInv(s: State) {
    && (forall e :: TableRefines(s, e))
    && (forall k | 0 <= k < |s.calls| :: Answered(s, s.calls[k]))
    && (forall k | 0 <= k < |s.calls| :: s.calls[k].inserted <==> !SeenBefore(s.calls, k))
  }

  lemma {:induction false} SubmittedHas(calls: seq<Call>, e: string, x: string)
    ensures x in Submitted(calls, e) <==> exists j | 0 <= j < |calls| :: calls[j].endpoint == e && calls[j].fp == x
  {
    if calls != [] {
      var n := |calls| - 1;
      SubmittedHas(calls[..n], e, x);
      if x in Submitted(calls[..n], e) {
        var j :| 0 <= j < n && calls[..n][j].endpoint == e && calls[..n][j].fp == x;
        assert calls[j].fp == x;
      } else if x !in Submitted(calls, e) {
        forall j | 0 <= j < |calls| ensures !(calls[j].endpoint == e && calls[j].fp == x) {
          if j < n { assert calls[..n][j] == calls[j]; }
        }
      }
    }
  }

  lemma {:induction false} SubmittedGrows(calls: seq<Call>, call: Call, e: string)
    ensures Submitted(calls + [call], e) == Submitted(calls, e) + (if call.endpoint == e then [call.fp] else [])
  {
    assert (calls + [call])[..|calls|] == calls;
  }

  lemma {:induction false} FirstSeenGrows(fps: seq<string>, x: string)
    ensures FirstSeen(fps + [x]) == if x in FirstSeen(fps) then FirstSeen(fps) else FirstSeen(fps) + [x]
  {
    assert (fps + [x])[..|fps|] == fps;
  }

  /** The list before and after one more call. */
  lemma {:induction false} ListGrows(s: State, call: Call, e: string)
    requires TableRefines(s, e)
    ensures FirstSeen(Submitted(s.calls + [call], e)) ==
      if call.endpoint == e && call.fp !in Fingerprints(Rows(s, e)) then Fingerprints(Rows(s, e)) + [call.fp]
      else Fingerprints(Rows(s, e))
  {
    SubmittedGrows(s.calls, call, e);
    if call.endpoint == e { FirstSeenGrows(Submitted(s.calls, e), call.fp); }
    else { assert Submitted(s.calls, e) + [] == Submitted(s.calls, e); }
  }

  lemma {:induction false} SeenBeforeGrows(calls: seq<Call>, call: Call, k: nat)
    requires k < |calls|
    ensures SeenBefore(calls + [call], k) <==> SeenBefore(calls, k)
  {
    var r := calls + [call];
    if SeenBefore(calls, k) {
      var j :| 0 <= j < k && calls[j].endpoint == calls[k].endpoint && calls[j].fp == calls[k].fp;
      assert r[j] == calls[j] && r[k] == calls[k];
    }
  }

  /** The new call is the first with its fingerprint exactly when the table lacked it. */
  lemma {:induction false} LastSeenBefore(s: State, call: Call)
    requires TableRefines(s, call.endpoint)
    ensures SeenBefore(s.calls + [call], |s.calls|) <==> call.fp in Fingerprints(Rows(s, call.endpoint))
  {
    FirstSeenIsDeduplication(Submitted(s.calls, call.endpoint));
    SubmittedHas(s.calls, call.endpoint, call.fp);
    var r := s.calls + [call];
    if exists j | 0 <= j < |s.calls| :: s.calls[j].endpoint == call.endpoint && s.calls[j].fp == call.fp {
      var j :| 0 <= j < |s.calls| && s.calls[j].endpoint == call.endpoint && s.calls[j].fp == call.fp;
      assert r[j] == s.calls[j];
    }
  }

  lemma {:induction false} InsertedKept(s: State, call: Call)
    requires HistoryInv(s) && (call.inserted <==> call.fp !in Fingerprints(Rows(s, call.endpoint)))
    ensures var r := s.calls + [call]; forall k | 0 <= k < |r| :: r[k].inserted <==> !SeenBefore(r, k)
  {
    var r := s.calls + [call];
    LastSeenBefore(s, call);
    forall k | 0 <= k < |r| ensures r[k].inserted <==> !SeenBefore(r, k) {
      if k < |s.calls| { SeenBeforeGrows(s.calls, call, k); }
    }
  }

  ghost predicate KeepsFingerprints(before: seq<Row>, after: seq<Row>) {
    |before| <= |after| && forall i | 0 <= i < |before| :: after[i].fp == before[i].fp
  }

  lemma {:induction false} AnswersKept(s: State, s': State, call: Call)
    requires HistoryInv(s) && s'.calls == s.calls + [call] && Answered(s', call)
    requires forall e :: KeepsFingerprints(Rows(s, e), Rows(s', e))
    ensures forall k | 0 <= k < |s'.calls| :: Answered(s', s'.calls[k])
  {
    forall k | 0 <= k < |s'.calls| ensures Answered(s', s'.calls[k]) {
      if k < |s.calls| {
        var e := s.calls[k].endpoint;
        assert Answered(s, s.calls[k]) && KeepsFingerprints(Rows(s, e), Rows(s', e));
      }
    }
  }

  // ---- Commits ----

  lemma {:induction false} CommitFoundKeeps(s: State, s': State, e: string, row: Row)
    requires HistoryInv(s) && Known(Rows(s, e), row) && s'.tables == s.tables
    requires s'.calls == s.calls + [Call(e, row.fp, row.version, false)]
    ensures HistoryInv(s')
  {
    var call := Call(e, row.fp, row.version, false);
    assert Fingerprints(Rows(s, e))[row.version - 1] == row.fp;
    InsertedKept(s, call);
    AnswersKept(s, s', call);
    forall x ensures TableRefines(s', x) {
      assert Rows(s', x) == Rows(s, x) && TableRefines(s, x);
      ListGrows(s, call, x);
    }
  }

  lemma {:induction false} PublishFingerprints(c: Config, rows: seq<Row>, nextId: nat, row: Row)
    requires PendingOk(c, rows, nextId, row, |rows|)
    ensures row.fp !in Fingerprints(rows)
    ensures Fingerprints(Publish(rows, |rows|, row)) == Fingerprints(rows) + [row.fp]
    ensures KeepsFingerprints(rows, Publish(rows, |rows|, row))
  {
  }

  lemma {:induction false} CommitPendingKeepsHistory(c: Config, s: State, s': State, e: string, row: Row)
    requires HistoryInv(s) && PendingOk(c, Rows(s, e), s.nextId, row, |Rows(s, e)|)
    requires s'.tables == s.tables[e := Publish(Rows(s, e), |Rows(s, e)|, row)]
    requires s'.calls == s.calls + [Call(e, row.fp, row.version, true)]
    ensures HistoryInv(s')
  {
    var call := Call(e, row.fp, row.version, true);
    PublishFingerprints(c, Rows(s, e), s.nextId, row);
    InsertedKept(s, call);
    forall x ensures KeepsFingerprints(Rows(s, x), Rows(s', x)) {}
    AnswersKept(s, s', call);
    forall x ensures TableRefines(s', x) {
      assert TableRefines(s, x);
      ListGrows(s, call, x);
    }
  }

  lemma {:induction false} SameTablesAndCalls(s: State, s': State)
    requires HistoryInv(s) && s'.tables == s.tables && s'.calls == s.calls
    ensures HistoryInv(s')
  {
    forall e ensures TableRefines(s', e) { assert TableRefines(s, e); }
    forall k | 0 <= k < |s'.calls| ensures Answered(s', s'.calls[k]) { assert Answered(s, s.calls[k]); }
  }

  lemma {:induction false} CommitKeepsHistory(c: Config, s: State, t: nat)
    requires Inv(c, s) && HistoryInv(s) && t in s.txs && MayCommit(c, s.txs[t])
    ensures HistoryInv(DoCommit(c, s, t))
  {
    var tx, s' := s.txs[t], DoCommit(c, s, t);
    assert TxOk(c, Rows(s, tx.endpoint), s.nextId, tx);
    if Pending(tx) {
      CommitPendingKeepsHistory(c, s, s', tx.endpoint, PendingRow(tx));
    } else if tx.phase.Found? {
      CommitFoundKeeps(s, s', tx.endpoint, tx.phase.row);
    } else {
      SameTablesAndCalls(s, s');
    }
  }

  lemma {:induction false} OtherStepsKeepHistory(c: Config, s: State, a: Action)
    requires Enabled(c, s, a) && !a.Commit?
    ensures Do(c, s, a).tables == s.tables && Do(c, s, a).calls == s.calls
  {
  }

  /** After any run, for every endpoint: the table's fingerprints are the
      first-occurrence de-duplication of those submitted, in commit order; every
      committed call was answered with its fingerprint's position, whether it found
      the row with or without the lock or inserted it; and a call reports an
      insertion exactly when it is the first committed with its fingerprint. */
  lemma {:induction false} TableRefinesFirstSeen(c: Config, run: seq<State>, acts: seq<Action>, i: nat)
    requires IsRun(c, run, acts) && i < |run|
    ensures HistoryInv(run[i])
    decreases i
  {
    if i > 0 {
      var s, a := run[i - 1], acts[i - 1];
      TableRefinesFirstSeen(c, run, acts, i - 1);
      RunsKeepInv(c, run, acts, i - 1);
      assert Enabled(c, s, a) && run[i] == Do(c, s, a);
      if a.Commit? {
        CommitKeepsHistory(c, s, a.t);
      } else {
        OtherStepsKeepHistory(c, s, a);
        SameTablesAndCalls(s, run[i]);
      }
    }
  }

  predicate SameSubmission(a: Call, b: Call) { a.endpoint == b.endpoint && a.fp == b.fp }

  /** For every committed call there is exactly one committed call with its endpoint
      and fingerprint that inserted the version. */
  lemma {:induction false} ExactlyOneInserts(c: Config, run: seq<State>, acts: seq<Action>, i: nat, k: nat)
    requires IsRun(c, run, acts) && i < |run| && k < |run[i].calls|
    ensures var calls := run[i].calls;
      exists j | 0 <= j < |calls| && calls[j].inserted && SameSubmission(calls[j], calls[k]) ::
        forall m | 0 <= m < |calls| && calls[m].inserted && SameSubmission(calls[m], calls[k]) :: m == j
  {
    TableRefinesFirstSeen(c, run, acts, i);
    var j := FirstCall(run[i].calls, k);
    assert !SeenBefore(run[i].calls, j);
  }

  /** The first call with the endpoint and fingerprint of call `k`. */
  function FirstCall(calls: seq<Call>, k: nat): (j: nat)
    requires k < |calls|
    ensures j <= k && calls[j].endpoint == calls[k].endpoint && calls[j].fp == calls[k].fp && !SeenBefore(calls, j)
    decreases k
  {
    if !SeenBefore(calls, k) then k else
      assert exists j: nat :: j < k && calls[j].endpoint == calls[k].endpoint && calls[j].fp == calls[k].fp;
      FirstCall(calls, LastBefore(calls, k, k))
  }

  function LastBefore(calls: seq<Call>, k: nat, n: nat): (j: nat)
    requires n <= k < |calls|
    requires exists j | 0 <= j < n :: calls[j].endpoint == calls[k].endpoint && calls[j].fp == calls[k].fp
    ensures j < n && calls[j].endpoint == calls[k].endpoint && calls[j].fp == calls[k].fp
  {
    if calls[n - 1].endpoint == calls[k].endpoint && calls[n - 1].fp == calls[k].fp then n - 1 else LastBefore(calls, k, n - 1)
  }
}
