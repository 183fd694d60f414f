/** One worker that polls oldest first, fifty rows at a time, ends every row: each poll
    at which a row is ready takes the row or spends fifty attempts of older rows, and
    both kinds of attempts run out. */
module OutboxFairness {
  import opened Texts
  import opened OutboxModel
  import opened OutboxSafety
  import opened OneWorker
  import opened OutboxDrain

  const BATCH: nat := 50

  /** `ORDER BY created_at ... LIMIT 50`: a ready row is left out only of a full batch of
      rows created no later. */
  ghost predicate OldestFirst(s: State, ids: seq<nat>) {
    && |ids| <= BATCH
    && forall x | Ready(s, x) && x !in ids :: |ids| == BATCH && forall y | y in ids :: NoLater(s, y, x)
  }

  /** Row `y` was created no later than row `x`. */
  predicate NoLater(s: State, y: nat, x: nat) {
    y in s.rows && x in s.rows && s.rows[y].created <= s.rows[x].created
  }

  /** A run of one worker that polls oldest first and does not crash. */
  ghost predicate IsFairRun(run: seq<State>, acts: seq<Action>) {
    && IsSingleRun(run, acts)
    && forall j | 0 <= j < |acts| :: !acts[j].Crash? && (acts[j].Poll? ==> OldestFirst(run[j], acts[j].ids))
  }

  // ---- How many more times a row can be taken ----

  predicate InBatch(s: State, x: nat) {
    0 in s.workers && exists i | 0 <= i < |s.workers[0].batch| :: s.workers[0].batch[i].id == x
  }

  predicate Unfinished(r: Row) { r.status == Pending || r.status == Delivering }

  /** The attempts left to an unfinished row, not counting the one it is in a batch for;
      a row still to be written has all of them, a finished or deleted one none. */
  function Left(s: State, x: nat): int {
    if x !in s.rowIds then MAX_ATTEMPTS
    else if x in s.rows && Unfinished(s.rows[x]) then
      s.rows[x].max - s.rows[x].attempts - (if InBatch(s, x) then 1 else 0)
    else 0
  }

  lemma {:induction false} LeftIsNatural(s: State, x: nat)
    requires Inv(s) && OneInv(s)
    ensures 0 <= Left(s, x) <= MAX_ATTEMPTS
    ensures x in s.rows && s.rows[x].status == Pending && !InBatch(s, x) ==> Left(s, x) >= 1
  {
    assert RowTraced(s, x);
    if x in s.rows { assert Backed(s, s.rows[x]); }
    if InBatch(s, x) {
      var i :| 0 <= i < |s.workers[0].batch| && s.workers[0].batch[i].id == x;
      BatchItem(s, i);
    }
  }

  lemma {:induction false} BatchItem(s: State, i: nat)
    requires OneInv(s) && 0 in s.workers && i < |s.workers[0].batch|
    ensures var item := s.workers[0].batch[i];
      item.id in s.rows ==> s.rows[item.id].attempts == item.attempts && item.attempts < s.rows[item.id].max
  {
    var item := s.workers[0].batch[i];
    assert BatchTraced(s, s.workers[0]) && RowTraced(s, item.id);
    if i > 0 { assert Waiting(s, item); }
  }

  function Takes(a: Action, x: nat): nat { if a.Poll? && x in a.ids then 1 else 0 }

  lemma {:induction false} PollSpends(s: State, a: Action, x: nat)
    requires Inv(s) && Enabled(s, a) && a.Poll? && a.w == 0
    ensures Left(Do(s, a), x) + Takes(a, x) == Left(s, x)
  {
    var items := Items(s, a.ids);
    if x in a.ids {
      var i :| 0 <= i < |a.ids| && a.ids[i] == x;
      assert Ready(s, x) && items[i].id == x && x in s.rowIds;
    }
    assert InBatch(Do(s, a), x) <==> x in a.ids;
  }

  lemma {:induction false} FinishSpends(s: State, x: nat)
    requires Inv(s) && OneInv(s) && Busy(s, 0) && (s.workers[0].phase.Answered? || s.workers[0].phase == Looked(None))
    ensures Left(DoFinish(s, 0), x) <= Left(s, x)
  {
    var s', item, batch := DoFinish(s, 0), Current(s, 0), s.workers[0].batch;
    LeftIsNatural(s, x);
    assert BatchTraced(s, s.workers[0]) && InHand(s, item, s.workers[0].phase) && WorkerOk(s, s.workers[0]) && ItemOk(s, item);
    RestOfBatch(batch, x);
    if x == item.id && x in s.rows { assert s'.rows[x] == Outcome(s, s.rows[x], item, s.workers[0].phase); }
  }

  predicate HasItem(batch: seq<Item>, x: nat) { exists i | 0 <= i < |batch| :: batch[i].id == x }

  lemma {:induction false} RestOfBatch(batch: seq<Item>, x: nat)
    requires BatchDistinct(batch) && batch != []
    ensures HasItem(batch[1..], x) <==> HasItem(batch, x) && x != batch[0].id
  {
    var rest := batch[1..];
    assert forall i | 0 <= i < |rest| :: rest[i] == batch[i + 1];
    if HasItem(batch, x) && x != batch[0].id {
      var i :| 0 <= i < |batch| && batch[i].id == x;
      assert rest[i - 1].id == x;
    }
  }

  lemma {:induction false} SameBatchSpends(s: State, s': State, x: nat)
    requires s'.rowIds == s.rowIds && (x in s'.rows ==> x in s.rows)
    requires x in s'.rows ==> s'.rows[x].attempts == s.rows[x].attempts && s'.rows[x].max == s.rows[x].max
    requires x in s'.rows ==> (Unfinished(s'.rows[x]) <==> Unfinished(s.rows[x]))
    requires InBatch(s', x) <==> InBatch(s, x)
    requires Left(s, x) >= 0
    ensures Left(s', x) <= Left(s, x)
  {
  }

  lemma {:induction false} MarkSpends(s: State, x: nat)
    requires Inv(s) && OneInv(s) && Busy(s, 0) && s.workers[0].phase.Idle?
    ensures Left(DoMark(s, 0), x) <= Left(s, x)
  {
    LeftIsNatural(s, x);
    assert BatchTraced(s, s.workers[0]) && Waiting(s, Current(s, 0));
    SameBatchSpends(s, DoMark(s, 0), x);
  }

  lemma {:induction false} EnqueueSpends(s: State, a: Action, x: nat)
    requires Inv(s) && OneInv(s) && Enabled(s, a) && a.Enqueue?
    ensures Left(Do(s, a), x) <= Left(s, x)
  {
    if InBatch(s, x) {
      var i :| 0 <= i < |s.workers[0].batch| && s.workers[0].batch[i].id == x;
      assert WorkerOk(s, s.workers[0]) && ItemOk(s, s.workers[0].batch[i]);
    }
  }

  lemma {:induction false} OtherSpends(s: State, a: Action, x: nat)
    requires Inv(s) && OneInv(s) && Enabled(s, a) && Single(a) && !a.Crash?
    requires !a.Poll? && !a.Finish? && !a.Mark? && !a.Enqueue?
    ensures Left(Do(s, a), x) <= Left(s, x)
  {
    LeftIsNatural(s, x);
    OtherKeepsBatch(s, a, x);
    SameBatchSpends(s, Do(s, a), x);
  }

  lemma {:induction false} OtherKeepsBatch(s: State, a: Action, x: nat)
    requires Enabled(s, a) && Single(a) && !a.Crash? && !a.Poll? && !a.Finish? && !a.Mark? && !a.Enqueue?
    ensures var s' := Do(s, a);
      && s'.rowIds == s.rowIds && (x in s'.rows ==> x in s.rows && s'.rows[x] == s.rows[x])
      && (InBatch(s', x) <==> InBatch(s, x))
  {
  }

  /** Every step of a crash-free worker leaves each row at most what it had, and a poll
      that takes the row one less. */
  lemma {:induction false} StepSpends(s: State, a: Action, x: nat)
    requires Inv(s) && OneInv(s) && Enabled(s, a) && Single(a) && !a.Crash?
    ensures Left(Do(s, a), x) + Takes(a, x) <= Left(s, x)
  {
    match a
    case Poll(_, _) => PollSpends(s, a, x);
    case Finish(_) => FinishSpends(s, x);
    case Mark(_) => MarkSpends(s, x);
    case Enqueue(_, _, _, _) => EnqueueSpends(s, a, x);
    case _ => OtherSpends(s, a, x);
  }

  // ---- Counting polls ----

  /** How many of the polls k..i-1 took row `x`. */
  function Taken(acts: seq<Action>, k: nat, i: nat, x: nat): nat
    requires k <= i <= |acts|
    decreases i
  {
    if i == k then 0 else Taken(acts, k, i - 1, x) + Takes(acts[i - 1], x)
  }

  lemma {:induction false} TakenAtMost(run: seq<State>, acts: seq<Action>, k: nat, i: nat, x: nat)
    requires IsFairRun(run, acts) && k <= i < |run|
    ensures Taken(acts, k, i, x) + Left(run[i], x) <= Left(run[k], x)
    decreases i
  {
    if i > k {
      TakenAtMost(run, acts, k, i - 1, x);
      RunsKeepOne(run, acts, i - 1);
      assert Enabled(run[i - 1], acts[i - 1]) && Single(acts[i - 1]) && !acts[i - 1].Crash?;
      StepSpends(run[i - 1], acts[i - 1], x);
    }
  }

  predicate ReadyPoll(s: State, a: Action, id: nat) { a.Poll? && Ready(s, id) }

  predicate Skip(s: State, a: Action, id: nat) { ReadyPoll(s, a, id) && id !in a.ids }

  /** How many of the polls k..i-1 found row `id` ready. */
  function ReadyPolls(run: seq<State>, acts: seq<Action>, k: nat, i: nat, id: nat): nat
    requires |run| == |acts| + 1 && k <= i <= |acts|
    decreases i
  {
    if i == k then 0 else ReadyPolls(run, acts, k, i - 1, id) + (if ReadyPoll(run[i - 1], acts[i - 1], id) then 1 else 0)
  }

  /** How many of them left it out. */
  function Skips(run: seq<State>, acts: seq<Action>, k: nat, i: nat, id: nat): nat
    requires |run| == |acts| + 1 && k <= i <= |acts|
    decreases i
  {
    if i == k then 0 else Skips(run, acts, k, i - 1, id) + (if Skip(run[i - 1], acts[i - 1], id) then 1 else 0)
  }

  lemma {:induction false} ReadyIsTakenOrSkipped(run: seq<State>, acts: seq<Action>, k: nat, i: nat, id: nat)
    requires IsFairRun(run, acts) && k <= i < |run|
    ensures ReadyPolls(run, acts, k, i, id) == Taken(acts, k, i, id) + Skips(run, acts, k, i, id)
    decreases i
  {
    if i > k {
      ReadyIsTakenOrSkipped(run, acts, k, i - 1, id);
      assert Enabled(run[i - 1], acts[i - 1]);
    }
  }

  // ---- Sums over rows ----

  function SumTaken(acts: seq<Action>, k: nat, i: nat, rows: set<nat>, n: nat): nat
    requires k <= i <= |acts|
    decreases n
  {
    if n == 0 then 0
    else SumTaken(acts, k, i, rows, n - 1) + (if n - 1 in rows then Taken(acts, k, i, n - 1) else 0)
  }

  function SumLeft(s: State, rows: set<nat>, n: nat): int {
    if n == 0 then 0 else SumLeft(s, rows, n - 1) + (if n - 1 in rows then Left(s, n - 1) else 0)
  }

  function CountIn(ids: seq<nat>, n: nat): nat {
    if n == 0 then 0 else CountIn(ids, n - 1) + (if n - 1 in ids then 1 else 0)
  }

  lemma {:induction false} SumTakenAtMost(run: seq<State>, acts: seq<Action>, k: nat, i: nat, rows: set<nat>, n: nat)
    requires IsFairRun(run, acts) && k <= i < |run|
    ensures SumTaken(acts, k, i, rows, n) <= SumLeft(run[k], rows, n)
    decreases n
  {
    if n > 0 {
      SumTakenAtMost(run, acts, k, i, rows, n - 1);
      TakenAtMost(run, acts, k, i, n - 1);
      RunsKeepOne(run, acts, i);
      LeftIsNatural(run[i], n - 1);
    }
  }

  lemma {:induction false} CountInSet(ids: seq<nat>, n: nat)
    ensures CountIn(ids, n) == |set x | x in ids && x < n|
  {
    if n > 0 {
      CountInSet(ids, n - 1);
      var smaller := set x | x in ids && x < n - 1;
      assert (set x | x in ids && x < n) == if n - 1 in ids then smaller + {n - 1} else smaller;
    } else {
      assert (set x | x in ids && x < 0) == {};
    }
  }

  function Members(ids: seq<nat>): set<nat> { set x | x in ids }

  lemma {:induction false} MembersGrow(ids: seq<nat>, x: nat)
    ensures Members([x] + ids) == {x} + Members(ids)
  {
  }

  lemma {:induction false} DistinctSize(ids: seq<nat>)
    requires Distinct(ids)
    ensures |Members(ids)| == |ids|
  {
    if ids != [] {
      var rest := ids[1..];
      DistinctSize(rest);
      MembersGrow(rest, ids[0]);
      assert ids == [ids[0]] + rest;
      assert ids[0] !in Members(rest);
    }
  }

  lemma {:induction false} CountDistinct(ids: seq<nat>, n: nat)
    requires Distinct(ids) && forall x | x in ids :: x < n
    ensures CountIn(ids, n) == |ids|
  {
    CountInSet(ids, n);
    DistinctSize(ids);
    assert (set x | x in ids && x < n) == Members(ids);
  }

  /** A poll adds one for each row it takes. */
  lemma {:induction false} SumTakenGrows(acts: seq<Action>, k: nat, i: nat, rows: set<nat>, n: nat)
    requires k <= i < |acts|
    ensures SumTaken(acts, k, i + 1, rows, n) >= SumTaken(acts, k, i, rows, n)
    ensures acts[i].Poll? && (forall x | x in acts[i].ids :: x in rows) ==>
      SumTaken(acts, k, i + 1, rows, n) == SumTaken(acts, k, i, rows, n) + CountIn(acts[i].ids, n)
    decreases n
  {
    if n > 0 { SumTakenGrows(acts, k, i, rows, n - 1); }
  }

  /** Every row that the step takes, if it is a poll leaving `id` out, is one of `rows`, below `n`. */
  ghost predicate SkipFor(s: State, a: Action, id: nat, rows: set<nat>, n: nat) {
    Skip(s, a, id) ==> forall x | x in a.ids :: x in rows && x < n
  }

  ghost predicate SkipsFor(run: seq<State>, acts: seq<Action>, k: nat, i: nat, id: nat, rows: set<nat>, n: nat)
    requires |run| == |acts| + 1 && k <= i <= |acts|
  {
    forall j | k <= j < i :: SkipFor(run[j], acts[j], id, rows, n)
  }

  /** A poll that leaves `id` out adds fifty. */
  lemma {:induction false} SkipSpends(run: seq<State>, acts: seq<Action>, k: nat, i: nat, id: nat, rows: set<nat>, n: nat)
    requires |run| == |acts| + 1 && k <= i < |acts| && Enabled(run[i], acts[i])
    requires Skip(run[i], acts[i], id) && OldestFirst(run[i], acts[i].ids) && SkipFor(run[i], acts[i], id, rows, n)
    ensures SumTaken(acts, k, i + 1, rows, n) == SumTaken(acts, k, i, rows, n) + BATCH
  {
    SumTakenGrows(acts, k, i, rows, n);
    CountDistinct(acts[i].ids, n);
  }

  lemma {:induction false} SkipsSpend(run: seq<State>, acts: seq<Action>, k: nat, i: nat, id: nat, rows: set<nat>, n: nat)
    requires IsFairRun(run, acts) && k <= i < |run| && SkipsFor(run, acts, k, i, id, rows, n)
    ensures BATCH * Skips(run, acts, k, i, id) <= SumTaken(acts, k, i, rows, n)
    decreases i
  {
    if i > k {
      SkipsSpend(run, acts, k, i - 1, id, rows, n);
      SumTakenGrows(acts, k, i - 1, rows, n);
      assert SkipFor(run[i - 1], acts[i - 1], id, rows, n);
      if Skip(run[i - 1], acts[i - 1], id) {
        assert Enabled(run[i - 1], acts[i - 1]) && OldestFirst(run[i - 1], acts[i - 1].ids);
        SkipSpends(run, acts, k, i - 1, id, rows, n);
      }
    } else {
      SumOfNone(acts, k, rows, n);
    }
  }

  lemma {:induction false} SumOfNone(acts: seq<Action>, k: nat, rows: set<nat>, n: nat)
    requires k <= |acts|
    ensures SumTaken(acts, k, k, rows, n) == 0
  {
    if n > 0 { SumOfNone(acts, k, rows, n - 1); }
  }

  // ---- The bound ----

  /** The rows seen beside row `id` between k and i that were created no later. */
  ghost function OlderRows(run: seq<State>, k: nat, i: nat, id: nat): set<nat>
    requires k <= i < |run|
  {
    set x | x in run[i].rowIds && x != id && exists j | k <= j < i :: NoLater(run[j], x, id)
  }

  predicate IdsGrowAt(run: seq<State>, j: nat)
    requires j + 1 < |run|
  {
    run[j].rowIds <= run[j + 1].rowIds
  }

  lemma {:induction false} IdsGrowAlong(run: seq<State>, j: nat, i: nat)
    requires j <= i < |run| && forall m | j <= m < i :: IdsGrowAt(run, m)
    ensures run[j].rowIds <= run[i].rowIds
    decreases i
  {
    if j < i {
      IdsGrowAlong(run, j, i - 1);
      assert IdsGrowAt(run, i - 1);
    }
  }

  lemma {:induction false} RowIdsGrow(run: seq<State>, acts: seq<Action>, j: nat, i: nat)
    requires IsRun(run, acts) && j <= i < |run|
    ensures run[j].rowIds <= run[i].rowIds
  {
    forall m | j <= m < i ensures IdsGrowAt(run, m) { NextGrowsIds(run, acts, m); }
    IdsGrowAlong(run, j, i);
  }

  lemma {:induction false} NextGrowsIds(run: seq<State>, acts: seq<Action>, i: nat)
    requires IsRun(run, acts) && i < |acts|
    ensures IdsGrowAt(run, i)
  {
    assert Enabled(run[i], acts[i]);
    StepGrowsIds(run[i], acts[i]);
  }

  lemma {:induction false} StepGrowsIds(s: State, a: Action)
    requires Enabled(s, a)
    ensures s.rowIds <= Do(s, a).rowIds
  {
    match a
    case Mark(_) =>
    case Post(_, _) =>
    case Finish(_) =>
    case Replay(_, _, _) =>
    case _ =>
  }

  lemma {:induction false} SkipTakesOlder(run: seq<State>, acts: seq<Action>, k: nat, j: nat, i: nat, id: nat, x: nat)
    requires IsFairRun(run, acts) && k <= j < i < |run| && Skip(run[j], acts[j], id) && x in acts[j].ids
    ensures x in run[i].rowIds && NoLater(run[j], x, id) && x != id
  {
    assert OldestFirst(run[j], acts[j].ids);
    RunsKeepOne(run, acts, j);
    RowIdsGrow(run, acts, j, i);
  }

  lemma {:induction false} SkipIsForOlder(run: seq<State>, acts: seq<Action>, k: nat, j: nat, i: nat, id: nat, n: nat)
    requires IsFairRun(run, acts) && k <= j < i < |run| && forall x | x in run[i].rowIds :: x < n
    ensures SkipFor(run[j], acts[j], id, OlderRows(run, k, i, id), n)
  {
    if Skip(run[j], acts[j], id) {
      forall x | x in acts[j].ids ensures x in OlderRows(run, k, i, id) && x < n {
        SkipTakesOlder(run, acts, k, j, i, id, x);
      }
    }
  }

  lemma {:induction false} SkipsTakeOlder(run: seq<State>, acts: seq<Action>, k: nat, i: nat, id: nat, n: nat)
    requires IsFairRun(run, acts) && k <= i < |run| && forall x | x in run[i].rowIds :: x < n
    ensures SkipsFor(run, acts, k, i, id, OlderRows(run, k, i, id), n)
  {
    forall j | k <= j < i ensures SkipFor(run[j], acts[j], id, OlderRows(run, k, i, id), n) {
      SkipIsForOlder(run, acts, k, j, i, id, n);
    }
  }

  /** The polls that can find row `id` ready before it ends: the attempts left to the rows
      created no later, fifty to a poll, and its own. */
  ghost function PollBound(run: seq<State>, k: nat, i: nat, id: nat, n: nat): int
    requires k <= i < |run|
  {
    SumLeft(run[k], OlderRows(run, k, i, id), n) / BATCH + Left(run[k], id)
  }

  /** In every crash-free run of one worker that polls oldest first, from any moment k on:
      the polls that found a row ready and the attempts it still has stay in the bound. */
  lemma {:induction false} ReadyPollsAreBounded(run: seq<State>, acts: seq<Action>, k: nat, i: nat, id: nat, n: nat)
    requires IsFairRun(run, acts) && k <= i < |run| && forall x | x in run[i].rowIds :: x < n
    ensures ReadyPolls(run, acts, k, i, id) + Left(run[i], id) <= PollBound(run, k, i, id, n)
  {
    var older := OlderRows(run, k, i, id);
    ReadyIsTakenOrSkipped(run, acts, k, i, id);
    SkipsTakeOlder(run, acts, k, i, id, n);
    SkipsSpend(run, acts, k, i, id, older, n);
    SumTakenAtMost(run, acts, k, i, older, n);
    TakenAtMost(run, acts, k, i, id);
  }

  /** So once as many polls as the bound have found a row ready, the row is DELIVERED,
      FAILED or deleted whenever the worker is idle. */
  lemma {:induction false} ReadyPollsEndRows(run: seq<State>, acts: seq<Action>, k: nat, i: nat, id: nat, n: nat)
    requires IsFairRun(run, acts) && k <= i < |run| && forall x | x in run[i].rowIds :: x < n
    requires !Busy(run[i], 0) && ReadyPolls(run, acts, k, i, id) >= PollBound(run, k, i, id, n)
    ensures id in run[i].rows ==> run[i].rows[id].status in {Delivered, Failed}
  {
    ReadyPollsAreBounded(run, acts, k, i, id, n);
    RunsKeepOne(run, acts, i);
    LeftIsNatural(run[i], id);
    CalmRunsLeaveNone(run, acts, i);
  }

  /** With m rows created no later, that is at most m / 10 + 5 polls. */
  lemma {:induction false} PollBoundAtMost(run: seq<State>, acts: seq<Action>, k: nat, i: nat, id: nat, n: nat)
    requires IsFairRun(run, acts) && k <= i < |run|
    ensures PollBound(run, k, i, id, n) <= 5 * |OlderRows(run, k, i, id)| / 50 + 5
  {
    var older := OlderRows(run, k, i, id);
    RunsKeepOne(run, acts, k);
    LeftIsNatural(run[k], id);
    SumLeftAtMost(run[k], older, n);
    var below := set x | x in older && x < n;
    SubsetSize(below, older);
  }

  lemma {:induction false} SubsetSize(a: set<nat>, b: set<nat>)
    requires a <= b
    ensures |a| <= |b|
  {
    if a != {} {
      var x :| x in a;
      SubsetSize(a - {x}, b - {x});
    }
  }

  lemma {:induction false} SumLeftAtMost(s: State, rows: set<nat>, n: nat)
    requires Inv(s) && OneInv(s)
    ensures 0 <= SumLeft(s, rows, n) <= MAX_ATTEMPTS * |set x | x in rows && x < n|
  {
    if n > 0 {
      SumLeftAtMost(s, rows, n - 1);
      LeftIsNatural(s, n - 1);
      var smaller := set x | x in rows && x < n - 1;
      assert (set x | x in rows && x < n) == if n - 1 in rows then smaller + {n - 1} else smaller;
    } else {
      assert (set x | x in rows && x < 0) == {};
    }
  }
}
