/** One worker and no inline delivery: how often a row is posted, how far apart its
    attempts are, and that they end. */
module OneWorker {
  import opened Texts
  import opened OutboxModel
  import opened OutboxSafety

  /** Only worker 0 ever takes a batch, and rows are delivered by it alone. */
  predicate Single(a: Action) {
    && !a.StartInline? && !a.InlinePost? && !a.EndInline? && !a.CrashInline?
    && (a.Poll? || a.Mark? || a.Look? || a.Post? || a.Finish? || a.Stop? || a.Crash? ==> a.w == 0)
  }

  // ---- Spacing of picks ----

  /** Pick k+2 comes no sooner after pick k+1 than the delay for k+1 attempts. */
  predicate SpacedAt(p: seq<int>, k: nat)
    requires k + 1 < |p|
  {
    p[k + 1] >= p[k] + Backoff(k + 1)
  }

  ghost predicate Spaced(p: seq<int>) { forall k | 0 <= k < |p| - 1 :: SpacedAt(p, k) }

  lemma {:induction false} SpacedGrows(p: seq<int>, now: int)
    requires Spaced(p) && (p != [] ==> now >= p[|p| - 1] + Backoff(|p|))
    ensures Spaced(p + [now])
  {
    var q := p + [now];
    forall k | 0 <= k < |q| - 1 ensures SpacedAt(q, k) {
      if k < |p| - 1 { assert SpacedAt(p, k); }
    }
  }

  /** The least time from the first pick to the n-th. */
  function Delay(n: nat): int
    requires n >= 1
  {
    if n <= 6 then Pow2(n) - 2 else 62 + 60 * (n - 6)
  }

  lemma {:induction false} Pow2Grows(n: nat)
    requires n >= 6
    ensures Pow2(n) >= 64
  {
    if n == 6 {
      assert Pow2(2) == 4 && Pow2(4) == 16;
    } else {
      Pow2Grows(n - 1);
    }
  }

  lemma {:induction false} DelayStep(n: nat)
    requires n >= 1
    ensures Delay(n + 1) == Delay(n) + Backoff(n)
  {
    if n >= 6 {
      Pow2Grows(n);
      assert Pow2(2) == 4 && Pow2(4) == 16 && Pow2(6) == 64;
    } else {
      assert Pow2(2) == 4 && Pow2(4) == 16;
    }
  }

  lemma {:induction false} SpacedDelay(p: seq<int>, n: nat)
    requires Spaced(p) && 1 <= n <= |p|
    ensures p[n - 1] >= p[0] + Delay(n)
  {
    if n > 1 {
      SpacedDelay(p, n - 1);
      DelayStep(n - 1);
      assert SpacedAt(p, n - 2);
    } else {
      assert Pow2(1) == 2;
    }
  }

  // ---- The invariant ----

  /** What is kept of every row id, even when the row is deleted. */
  ghost predicate Kept(p: seq<int>, n: nat, now: int) {
    Spaced(p) && |p| <= MAX_ATTEMPTS && n <= MAX_ATTEMPTS && (p != [] ==> p[|p| - 1] <= now)
  }

  /** The delay after the last pick is over. */
  predicate Over(p: seq<int>, now: int) { p != [] ==> now >= p[|p| - 1] + Backoff(|p|) }

  ghost predicate Traced(r: Row, p: seq<int>, n: nat) {
    && r.max == MAX_ATTEMPTS
    && match r.status
       case Pending => |p| == r.attempts < r.max && n <= r.attempts && Over(p, r.retryAt)
       case Delivering => |p| == r.attempts + 1 <= r.max && n <= r.attempts + 1
       case _ => true
  }

  ghost predicate RowTraced(s: State, id: nat) {
    Kept(Picks(s, id), Posts(s, id), s.now) && (id in s.rows ==> Traced(s.rows[id], Picks(s, id), Posts(s, id)))
  }

  /** A row of the batch that the worker has not started on. */
  predicate Waiting(s: State, item: Item) {
    var p := Picks(s, item.id);
    && item.max == MAX_ATTEMPTS && |p| == item.attempts < item.max && Posts(s, item.id) <= item.attempts && Over(p, s.now)
    && (item.id in s.rows ==> s.rows[item.id].status == Pending && s.rows[item.id].attempts == item.attempts)
  }

  /** The row the worker is busy with. */
  predicate InHand(s: State, item: Item, p: Phase) {
    && item.max == MAX_ATTEMPTS && |Picks(s, item.id)| == item.attempts + 1 <= item.max
    && Posts(s, item.id) <= item.attempts + (if p.Answered? then 1 else 0)
    && (item.id in s.rows ==> s.rows[item.id].status == Delivering && s.rows[item.id].attempts == item.attempts)
  }

  ghost predicate BatchDistinct(batch: seq<Item>) { forall i, j | 0 <= i < j < |batch| :: batch[i].id != batch[j].id }

  ghost predicate BatchTraced(s: State, worker: Worker) {
    && BatchDistinct(worker.batch)
    && (forall i | 0 < i < |worker.batch| :: Waiting(s, worker.batch[i]))
    && (worker.batch != [] ==>
          if worker.phase.Idle? then Waiting(s, worker.batch[0]) else InHand(s, worker.batch[0], worker.phase))
  }

  ghost predicate OneInv(s: State) {
    && (forall id :: RowTraced(s, id))
    && (forall id | id in s.picks || id in s.posts :: id in s.rowIds)
    && (forall w | w in s.workers :: w == 0)
    && (0 in s.workers ==> BatchTraced(s, s.workers[0]))
    && (forall t :: t !in s.inlines)
  }

  /** Rows and histories outside `ids` are untouched. */
  ghost predicate SameOutside(s: State, s': State, ids: set<nat>) {
    && s.now <= s'.now && s.rowIds <= s'.rowIds
    && (forall id | id in s'.rows && id !in ids :: id in s.rows && s'.rows[id] == s.rows[id])
    && (forall id | id !in ids :: Picks(s', id) == Picks(s, id) && Posts(s', id) == Posts(s, id))
    && (forall id | id in s'.picks || id in s'.posts :: id in s.picks || id in s.posts || id in s'.rowIds)
  }

  lemma {:induction false} ChangesKeepTraces(s: State, s': State, ids: set<nat>)
    requires OneInv(s) && SameOutside(s, s', ids)
    requires forall id | id in ids :: RowTraced(s', id)
    ensures forall id :: RowTraced(s', id)
  {
    forall id ensures RowTraced(s', id) { assert RowTraced(s, id); }
  }

  lemma {:induction false} BatchStays(s: State, s': State, ids: set<nat>, worker: Worker)
    requires BatchTraced(s, worker) && SameOutside(s, s', ids)
    requires forall i | 0 <= i < |worker.batch| :: worker.batch[i].id !in ids
    ensures BatchTraced(s', worker)
  {
    forall i | 0 < i < |worker.batch| ensures Waiting(s', worker.batch[i]) { assert Waiting(s, worker.batch[i]); }
  }

  lemma {:induction false} PlainIsQuiet(s: State, a: Action)
    requires Enabled(s, a) && Single(a) && Plain(a)
    ensures var s' := Do(s, a);
      && s.now <= s'.now && s'.rowIds == s.rowIds && s'.picks == s.picks && s'.posts == s.posts && s'.inlines == s.inlines
      && (forall id | id in s'.rows :: id in s.rows && s'.rows[id] == s.rows[id])
      && (forall w | w in s'.workers :: w in s.workers && s'.workers[w] == s.workers[w])
  {
    PlainKeepsHistory(s, a);
  }

  lemma {:induction false} PlainKeepsHistory(s: State, a: Action)
    requires Enabled(s, a) && Single(a) && Plain(a)
    ensures var s' := Do(s, a);
      s.now <= s'.now && s'.rowIds == s.rowIds && s'.picks == s.picks && s'.posts == s.posts && s'.inlines == s.inlines
  {
    match a
    case Tick(_) =>
    case AddSub(_, _) =>
    case SetActive(_, _) =>
    case DeleteSub(_) =>
    case Replay(_, _, _) =>
    case _ =>
  }

  /** A step that only drops workers or rows, adds a fresh row, or moves the clock. */
  lemma {:induction false} QuietKeeps(s: State, s': State, ids: set<nat>)
    requires Inv(s) && OneInv(s) && SameOutside(s, s', ids) && s'.inlines == s.inlines
    requires ids !! s.rowIds && forall id | id in ids :: RowTraced(s', id)
    requires s'.picks == s.picks && s'.posts == s.posts
    requires forall w | w in s'.workers :: w in s.workers && s'.workers[w] == s.workers[w]
    ensures OneInv(s')
  {
    ChangesKeepTraces(s, s', ids);
    if 0 in s'.workers {
      var worker := s.workers[0];
      assert WorkerOk(s, worker);
      forall i | 0 <= i < |worker.batch| ensures worker.batch[i].id !in ids { assert ItemOk(s, worker.batch[i]); }
      BatchStays(s, s', ids, worker);
    }
  }

  lemma {:induction false} PlainTraced(s: State, a: Action)
    requires Inv(s) && OneInv(s) && Enabled(s, a) && Single(a) && Plain(a)
    ensures OneInv(Do(s, a))
  {
    PlainIsQuiet(s, a);
    QuietKeeps(s, Do(s, a), {});
  }

  lemma {:induction false} EnqueueTraced(s: State, a: Action)
    requires Inv(s) && OneInv(s) && Enabled(s, a) && a.Enqueue?
    ensures OneInv(Do(s, a))
  {
    assert Picks(s, a.id) == [] && Posts(s, a.id) == 0 && RowTraced(s, a.id);
    QuietKeeps(s, Do(s, a), {a.id});
  }

  lemma {:induction false} PollTraced(s: State, a: Action)
    requires Inv(s) && OneInv(s) && Enabled(s, a) && a.Poll? && a.w == 0
    ensures OneInv(Do(s, a))
  {
    var s', items := Do(s, a), Items(s, a.ids);
    forall i | 0 <= i < |items| ensures Waiting(s', items[i]) { assert Ready(s, a.ids[i]) && RowTraced(s, a.ids[i]); }
    ChangesKeepTraces(s, s', {});
  }

  lemma {:induction false} RestWaits(s: State, s': State, worker: Worker, id: nat)
    requires BatchTraced(s, worker) && worker.batch != [] && id == worker.batch[0].id && SameOutside(s, s', {id})
    ensures forall i | 0 < i < |worker.batch| :: Waiting(s', worker.batch[i])
  {
    forall i | 0 < i < |worker.batch| ensures Waiting(s', worker.batch[i]) { assert Waiting(s, worker.batch[i]); }
  }

  lemma {:induction false} MarkTraced(s: State)
    requires Inv(s) && OneInv(s) && Busy(s, 0) && s.workers[0].phase.Idle?
    ensures OneInv(DoMark(s, 0))
  {
    var s', item := DoMark(s, 0), Current(s, 0);
    assert WorkerOk(s, s.workers[0]) && ItemOk(s, item) && RowTraced(s, item.id) && Waiting(s, item);
    SpacedGrows(Picks(s, item.id), s.now);
    assert RowTraced(s', item.id);
    ChangesKeepTraces(s, s', {item.id});
    RestWaits(s, s', s.workers[0], item.id);
  }

  lemma {:induction false} LookTraced(s: State, a: Action)
    requires Inv(s) && OneInv(s) && Enabled(s, a) && a.Look? && a.w == 0
    ensures OneInv(Do(s, a))
  {
    ChangesKeepTraces(s, Do(s, a), {});
    RestWaits(s, Do(s, a), s.workers[0], Current(s, 0).id);
  }

  lemma {:induction false} PostTraced(s: State, ok: bool)
    requires Inv(s) && OneInv(s) && Busy(s, 0) && s.workers[0].phase.Looked? && s.workers[0].phase.found.Some?
    ensures OneInv(DoPost(s, 0, ok))
  {
    var s', item := DoPost(s, 0, ok), Current(s, 0);
    PostFrame(s, 0, ok);
    assert WorkerOk(s, s.workers[0]) && ItemOk(s, item) && RowTraced(s, item.id) && InHand(s, item, s.workers[0].phase);
    assert RowTraced(s', item.id);
    ChangesKeepTraces(s, s', {item.id});
    RestWaits(s, s', s.workers[0], item.id);
  }

  /** Settling an attempt keeps a row's trace, for each of the three outcomes. */
  lemma {:induction false} FinishedRow(s: State, r: Row, item: Item, p: Phase, picks: seq<int>, n: nat)
    requires p.Answered? && r.status == Delivering && r.attempts == item.attempts && r.max == item.max
    requires Traced(r, picks, n) && Kept(picks, n, s.now)
    ensures Traced(Outcome(s, r, item, p), picks, n)
  {
  }

  lemma {:induction false} FinishTraced(s: State)
    requires Inv(s) && OneInv(s) && Busy(s, 0) && (s.workers[0].phase.Answered? || s.workers[0].phase == Looked(None))
    ensures OneInv(DoFinish(s, 0))
  {
    var s', item, p := DoFinish(s, 0), Current(s, 0), s.workers[0].phase;
    assert WorkerOk(s, s.workers[0]) && ItemOk(s, item) && PhaseOk(s, item, p) && RowTraced(s, item.id);
    if item.id in s.rows {
      assert Backed(s, s.rows[item.id]) && InHand(s, item, p);
      FinishedRow(s, s.rows[item.id], item, p, Picks(s, item.id), Posts(s, item.id));
    }
    ChangesKeepTraces(s, s', {item.id});
    RestWaits(s, s', s.workers[0], item.id);
    var rest := s.workers[0].batch[1..];
    forall i | 0 <= i < |rest| ensures Waiting(s', rest[i]) { assert rest[i] == s.workers[0].batch[i + 1]; }
  }

  lemma {:induction false} StepKeepsOne(s: State, a: Action)
    requires Inv(s) && OneInv(s) && Enabled(s, a) && Single(a)
    ensures OneInv(Do(s, a))
  {
    match a
    case Poll(_, _) => PollTraced(s, a);
    case Mark(_) => MarkTraced(s);
    case Look(_) => LookTraced(s, a);
    case Post(_, ok) => PostTraced(s, ok);
    case Finish(_) => FinishTraced(s);
    case Enqueue(_, _, _, _) => EnqueueTraced(s, a);
    case _ => PlainTraced(s, a);
  }

  ghost predicate IsSingleRun(run: seq<State>, acts: seq<Action>) {
    IsRun(run, acts) && forall i | 0 <= i < |acts| :: Single(acts[i])
  }

  lemma {:induction false} RunsKeepOne(run: seq<State>, acts: seq<Action>, i: nat)
    requires IsSingleRun(run, acts) && i < |run|
    ensures Inv(run[i]) && OneInv(run[i])
    decreases i
  {
    RunsKeepInv(run, acts, i);
    if i > 0 {
      RunsKeepOne(run, acts, i - 1);
      assert Enabled(run[i - 1], acts[i - 1]) && Single(acts[i - 1]);
      StepKeepsOne(run[i - 1], acts[i - 1]);
    }
  }

  /** Over any run, crashes included, a row id is posted and picked at most MAX_ATTEMPTS
      times, whether its row is still there or was deleted meanwhile, and its n-th pick
      is at least 2^n - 2 seconds after its first for n up to 6, and 62 + 60 (n - 6)
      seconds beyond. */
  lemma {:induction false} PostsBoundedAndSpaced(run: seq<State>, acts: seq<Action>, i: nat, id: nat)
    requires IsSingleRun(run, acts) && i < |run|
    ensures Posts(run[i], id) <= 5 && |Picks(run[i], id)| <= 5
    ensures forall n | 1 <= n <= |Picks(run[i], id)| :: Picks(run[i], id)[n - 1] >= Picks(run[i], id)[0] + Delay(n)
    ensures id in run[i].rows ==> run[i].rows[id].max == MAX_ATTEMPTS
  {
    RunsKeepOne(run, acts, i);
    assert RowTraced(run[i], id);
    var p := Picks(run[i], id);
    forall n | 1 <= n <= |p| ensures p[n - 1] >= p[0] + Delay(n) { SpacedDelay(p, n); }
  }
}
