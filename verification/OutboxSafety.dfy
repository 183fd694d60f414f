/** What every interleaving of inline deliverers, any number of workers, replays and
    crashes keeps: a row's status is backed by the delivery log and the dead letters. */
module OutboxSafety {
  import opened Texts
  import opened OutboxModel

  predicate Succeeded(log: seq<Attempt>, event: nat, consumer: string) { Attempt(event, consumer, true) in log }

  /** The evidence behind a row's status. */
  predicate Backed(s: State, r: Row) {
    && r.sub in s.subs
    && match r.status
       case Pending => r.attempts < r.max
       case Delivering => true
       case Delivered => Succeeded(s.log, r.event, s.subs[r.sub].consumer)
       case Failed => (r.event, s.subs[r.sub].consumer) in s.dlq
  }

  /** What a worker read about a row still identifies it. */
  predicate ItemOk(s: State, item: Item) {
    && item.id in s.rowIds && item.sub in s.subIds
    && (item.id in s.rows ==> var r := s.rows[item.id]; r.sub == item.sub && r.event == item.event && r.max == item.max)
  }

  predicate SameConsumer(s: State, id: nat, sub: Sub) { id in s.subs ==> s.subs[id].consumer == sub.consumer }

  predicate PhaseOk(s: State, item: Item, p: Phase) {
    match p
    case Idle => true
    case Marked => true
    case Looked(found) => if found.None? then item.sub !in s.subs else SameConsumer(s, item.sub, found.value)
    case Answered(sub, ok) => SameConsumer(s, item.sub, sub) && (ok ==> Succeeded(s.log, item.event, sub.consumer))
  }

  ghost predicate WorkerOk(s: State, worker: Worker) {
    && (forall i | 0 <= i < |worker.batch| :: ItemOk(s, worker.batch[i]))
    && (if worker.batch == [] then worker.phase.Idle? else PhaseOk(s, worker.batch[0], worker.phase))
  }

  predicate VerdictOk(s: State, v: Option<Verdict>) {
    v.Some? ==>
      && v.value.id in s.rowIds
      && (v.value.id in s.rows ==>
            && var r := s.rows[v.value.id];
            && r.sub in s.subs
            && var consumer := s.subs[r.sub].consumer;
            if v.value.ok then Succeeded(s.log, r.event, consumer) else (r.event, consumer) in s.dlq)
  }

  ghost predicate Inv(s: State) {
    && (forall id | id in s.rows :: id in s.rowIds && Backed(s, s.rows[id]))
    && (forall id | id in s.subs :: id in s.subIds)
    && (forall w | w in s.workers :: WorkerOk(s, s.workers[w]))
    && (forall t | t in s.inlines :: VerdictOk(s, s.inlines[t]))
  }

  // ---- What no step takes back ----

  /** Evidence only grows, identities stay, ids are not used twice. */
  ghost predicate Grows(s: State, s': State) {
    && s.log <= s'.log && s.dlq.Keys <= s'.dlq.Keys
    && s.rowIds <= s'.rowIds && s.subIds <= s'.subIds
    && (forall id | id in s'.subs && id in s.subIds :: id in s.subs && s'.subs[id].consumer == s.subs[id].consumer)
    && (forall id | id in s'.rows && id in s.rowIds ::
          && id in s.rows
          && var r, r' := s.rows[id], s'.rows[id];
          r'.sub == r.sub && r'.event == r.event && r'.max == r.max && r'.sub in s'.subs)
  }

  lemma {:induction false} ItemStays(s: State, s': State, item: Item)
    requires Grows(s, s') && ItemOk(s, item)
    ensures ItemOk(s', item)
  {
  }

  lemma {:induction false} PhaseStays(s: State, s': State, item: Item, p: Phase)
    requires Grows(s, s') && ItemOk(s, item) && PhaseOk(s, item, p)
    ensures PhaseOk(s', item, p)
  {
  }

  lemma {:induction false} WorkerStays(s: State, s': State, worker: Worker)
    requires Grows(s, s') && WorkerOk(s, worker)
    ensures WorkerOk(s', worker)
  {
    forall i | 0 <= i < |worker.batch| ensures ItemOk(s', worker.batch[i]) {
      ItemStays(s, s', worker.batch[i]);
    }
    if worker.batch != [] { PhaseStays(s, s', worker.batch[0], worker.phase); }
  }

  lemma {:induction false} VerdictStays(s: State, s': State, v: Option<Verdict>)
    requires Grows(s, s') && VerdictOk(s, v) && forall id | id in s.rows :: id in s.rowIds && s.rows[id].sub in s.subIds
    ensures VerdictOk(s', v)
  {
  }

  lemma {:induction false} BackedStays(s: State, s': State, r: Row)
    requires Grows(s, s') && Backed(s, r) && r.sub in s'.subs && r.sub in s.subIds
    ensures Backed(s', r)
  {
  }

  /** Enough to look at what a step changed. */
  lemma {:induction false} ChangesKeep(s: State, s': State, ids: set<nat>, ws: set<nat>, ts: set<nat>)
    requires Inv(s) && Grows(s, s')
    requires forall id | id in s'.rows && id !in ids :: id in s.rows && s'.rows[id] == s.rows[id]
    requires forall id | id in s'.rows && id in ids :: id in s'.rowIds && Backed(s', s'.rows[id])
    requires forall id | id in s'.subs :: id in s'.subIds
    requires forall u | u in s'.workers && u !in ws :: u in s.workers && s'.workers[u] == s.workers[u]
    requires forall u | u in s'.workers && u in ws :: WorkerOk(s', s'.workers[u])
    requires forall u | u in s'.inlines && u !in ts :: u in s.inlines && s'.inlines[u] == s.inlines[u]
    requires forall u | u in s'.inlines && u in ts :: VerdictOk(s', s'.inlines[u])
    ensures Inv(s')
  {
    forall id | id in s'.rows ensures id in s'.rowIds && Backed(s', s'.rows[id]) {
      if id !in ids { BackedStays(s, s', s.rows[id]); }
    }
    forall u | u in s'.workers ensures WorkerOk(s', s'.workers[u]) {
      if u !in ws { WorkerStays(s, s', s.workers[u]); }
    }
    forall u | u in s'.inlines ensures VerdictOk(s', s'.inlines[u]) {
      if u !in ts { VerdictStays(s, s', s.inlines[u]); }
    }
  }

  // ---- Subscriptions, new rows and the clock ----

  predicate Plain(a: Action) {
    a.Tick? || a.AddSub? || a.SetActive? || a.DeleteSub? || a.StartInline? || a.CrashInline? || a.Stop? || a.Crash? || a.Replay?
  }

  lemma {:induction false} PlainKeeps(s: State, a: Action)
    requires Inv(s) && Enabled(s, a) && Plain(a)
    ensures Inv(Do(s, a))
  {
    PlainGrows(s, a);
    PlainFrame(s, a);
    ChangesKeep(s, Do(s, a), {}, {}, if a.StartInline? then {a.t} else {});
  }

  lemma {:induction false} PlainGrows(s: State, a: Action)
    requires Inv(s) && Enabled(s, a) && Plain(a)
    ensures Grows(s, Do(s, a)) && forall id | id in Do(s, a).subs :: id in Do(s, a).subIds
  {
    if a.AddSub? || a.SetActive? || a.DeleteSub? {
      SubChangeGrows(s, a);
    } else {
      forall id | id in s.rows ensures s.rows[id].sub in s.subs { assert Backed(s, s.rows[id]); }
      PlainKeepsSubs(s, a);
    }
  }

  lemma {:induction false} SubChangeGrows(s: State, a: Action)
    requires Inv(s) && Enabled(s, a) && (a.AddSub? || a.SetActive? || a.DeleteSub?)
    ensures Grows(s, Do(s, a)) && forall id | id in Do(s, a).subs :: id in Do(s, a).subIds
  {
    forall id | id in s.rows ensures s.rows[id].sub in s.subs { assert Backed(s, s.rows[id]); }
  }

  lemma {:induction false} PlainKeepsSubs(s: State, a: Action)
    requires Enabled(s, a) && Plain(a) && !a.AddSub? && !a.SetActive? && !a.DeleteSub?
    ensures var s' := Do(s, a);
      && s'.subs == s.subs && s'.subIds == s.subIds && s'.rows == s.rows && s'.rowIds == s.rowIds && s'.dlq == s.dlq && s.log <= s'.log
  {
    match a
    case Replay(_, _, _) =>
    case Tick(_) =>
    case _ =>
  }

  lemma {:induction false} PlainFrame(s: State, a: Action)
    requires Enabled(s, a) && Plain(a)
    ensures var s' := Do(s, a);
      && (forall id | id in s'.rows :: id in s.rows && s'.rows[id] == s.rows[id])
      && (forall u | u in s'.workers :: u in s.workers && s'.workers[u] == s.workers[u])
      && (forall t | t in s'.inlines :: if a.StartInline? && t == a.t then s'.inlines[t].None? else t in s.inlines && s'.inlines[t] == s.inlines[t])
  {
    match a
    case DeleteSub(_) =>
    case Replay(_, _, _) =>
    case _ =>
  }

  lemma {:induction false} EnqueueKeeps(s: State, a: Action)
    requires Inv(s) && Enabled(s, a) && a.Enqueue?
    ensures Inv(Do(s, a))
  {
    ChangesKeep(s, Do(s, a), {a.id}, {}, {});
  }

  // ---- Inline deliveries ----

  /** The status an inline delivery decided is backed when it is committed. */
  lemma {:induction false} SettledRow(s: State, s': State, v: Option<Verdict>, id: nat)
    requires Inv(s) && Grows(s, s') && VerdictOk(s, v) && id in s.rows && id in s'.rows
    requires v.Some? ==> s'.rows[id] == Settle(s.rows, v)[id]
    requires v.Some? && v.value.id == id
    ensures Backed(s', s'.rows[id])
  {
  }

  lemma {:induction false} EndInlineKeeps(s: State, a: Action)
    requires Inv(s) && Enabled(s, a) && a.EndInline?
    ensures Inv(Do(s, a))
  {
    var s', v := Do(s, a), s.inlines[a.t];
    assert VerdictOk(s, v);
    if v.Some? && v.value.id in s.rows { SettledRow(s, s', v, v.value.id); }
    ChangesKeep(s, s', if v.Some? then {v.value.id} else {}, {}, {});
  }

  lemma {:induction false} InlinePostGrows(s: State, t: nat, id: nat, sub: nat, event: nat, ok: bool)
    requires Inv(s) && t in s.inlines && id !in s.rowIds && sub in s.subs
    ensures Grows(s, DoInlinePost(s, t, id, sub, event, ok))
  {
    assert VerdictOk(s, s.inlines[t]);
  }

  lemma {:induction false} InlinePostKeeps(s: State, t: nat, id: nat, sub: nat, event: nat, ok: bool)
    requires Inv(s) && t in s.inlines && id !in s.rowIds && sub in s.subs
    ensures Inv(DoInlinePost(s, t, id, sub, event, ok))
  {
    var s', v := DoInlinePost(s, t, id, sub, event, ok), s.inlines[t];
    InlinePostGrows(s, t, id, sub, event, ok);
    assert VerdictOk(s, v);
    if v.Some? && v.value.id in s.rows { SettledRow(s, s', v, v.value.id); }
    ChangesKeep(s, s', if v.Some? then {id, v.value.id} else {id}, {}, {t});
  }

  // ---- Workers ----

  lemma {:induction false} PollKeeps(s: State, a: Action)
    requires Inv(s) && Enabled(s, a) && a.Poll?
    ensures Inv(Do(s, a))
  {
    var s', items := Do(s, a), Items(s, a.ids);
    forall i | 0 <= i < |items| ensures ItemOk(s', items[i]) {
      assert Ready(s, a.ids[i]) && Backed(s, s.rows[a.ids[i]]);
    }
    ChangesKeep(s, s', {}, {a.w}, {});
  }

  lemma {:induction false} MarkKeeps(s: State, w: nat)
    requires Inv(s) && Busy(s, w) && s.workers[w].phase.Idle?
    ensures Inv(DoMark(s, w))
  {
    var s' := DoMark(s, w);
    WorkerStays(s, s', s.workers[w]);
    ChangesKeep(s, s', {Current(s, w).id}, {w}, {});
  }

  lemma {:induction false} LookKeeps(s: State, a: Action)
    requires Inv(s) && Enabled(s, a) && a.Look?
    ensures Inv(Do(s, a))
  {
    var s' := Do(s, a);
    WorkerStays(s, s', s.workers[a.w]);
    ChangesKeep(s, s', {}, {a.w}, {});
  }

  lemma {:induction false} PostAnswered(s: State, s': State, w: nat, sub: Sub, ok: bool)
    requires Inv(s) && Busy(s, w) && s.workers[w].phase == Looked(Some(sub)) && Grows(s, s')
    requires ok ==> s'.log == s.log + [Attempt(Current(s, w).event, sub.consumer, true)]
    ensures WorkerOk(s', Worker(s.workers[w].batch, Answered(sub, ok)))
  {
    var batch := s.workers[w].batch;
    assert WorkerOk(s, s.workers[w]);
    forall i | 0 <= i < |batch| ensures ItemOk(s', batch[i]) { ItemStays(s, s', batch[i]); }
    PhaseStays(s, s', batch[0], Looked(Some(sub)));
    assert ok ==> s'.log[|s.log|] == Attempt(batch[0].event, sub.consumer, true);
  }

  lemma {:induction false} PostFrame(s: State, w: nat, ok: bool)
    requires Busy(s, w) && s.workers[w].phase.Looked? && s.workers[w].phase.found.Some?
    ensures var s', sub := DoPost(s, w, ok), s.workers[w].phase.found.value;
      && s'.rows == s.rows && s'.dlq == s.dlq && s'.rowIds == s.rowIds && s'.inlines == s.inlines && s'.subs == s.subs && s'.subIds == s.subIds
      && s'.workers == s.workers[w := Worker(s.workers[w].batch, Answered(sub, sub.active && ok))]
      && s'.log == if sub.active then s.log + [Attempt(Current(s, w).event, sub.consumer, ok)] else s.log
  {
  }

  lemma {:induction false} PostKeeps(s: State, w: nat, ok: bool)
    requires Inv(s) && Busy(s, w) && s.workers[w].phase.Looked? && s.workers[w].phase.found.Some?
    ensures Inv(DoPost(s, w, ok))
  {
    var s' := DoPost(s, w, ok);
    var sub := s.workers[w].phase.found.value;
    PostFrame(s, w, ok);
    assert Grows(s, s') by { forall id | id in s.rows ensures s.rows[id].sub in s.subs { assert Backed(s, s.rows[id]); } }
    PostAnswered(s, s', w, sub, sub.active && ok);
    ChangesKeep(s, s', {}, {w}, {});
  }

  lemma {:induction false} OutcomeBacked(s: State, s': State, r: Row, item: Item, p: Phase)
    requires Backed(s, r) && ItemOk(s, item) && PhaseOk(s, item, p) && (p.Answered? || p == Looked(None))
    requires r.sub == item.sub && r.event == item.event && r.max == item.max
    requires s'.subs == s.subs && s'.log == s.log
    requires p.Answered? && !p.ok && item.attempts + 1 >= item.max ==> (item.event, p.sub.consumer) in s'.dlq
    ensures Backed(s', Outcome(s, r, item, p))
  {
  }

  lemma {:induction false} FinishKeeps(s: State, w: nat)
    requires Inv(s) && Busy(s, w) && (s.workers[w].phase.Answered? || s.workers[w].phase == Looked(None))
    ensures Inv(DoFinish(s, w))
  {
    var s', item, p := DoFinish(s, w), Current(s, w), s.workers[w].phase;
    assert WorkerOk(s, s.workers[w]) && ItemOk(s, item);
    if item.id in s.rows { OutcomeBacked(s, s', s.rows[item.id], item, p); }
    var rest := s.workers[w].batch[1..];
    forall i | 0 <= i < |rest| ensures ItemOk(s', rest[i]) { ItemStays(s, s', s.workers[w].batch[i + 1]); }
    ChangesKeep(s, s', {item.id}, {w}, {});
  }

  lemma {:induction false} StepKeepsInv(s: State, a: Action)
    requires Inv(s) && Enabled(s, a)
    ensures Inv(Do(s, a))
  {
    match a
    case Enqueue(_, _, _, _) => EnqueueKeeps(s, a);
    case InlinePost(t, id, sub, event, ok) => InlinePostKeeps(s, t, id, sub, event, ok);
    case EndInline(_) => EndInlineKeeps(s, a);
    case Poll(_, _) => PollKeeps(s, a);
    case Mark(w) => MarkKeeps(s, w);
    case Look(_) => LookKeeps(s, a);
    case Post(w, ok) => PostKeeps(s, w, ok);
    case Finish(w) => FinishKeeps(s, w);
    case _ => PlainKeeps(s, a);
  }

  lemma {:induction false} RunsKeepInv(run: seq<State>, acts: seq<Action>, i: nat)
    requires IsRun(run, acts) && i < |run|
    ensures Inv(run[i])
    decreases i
  {
    if i > 0 {
      RunsKeepInv(run, acts, i - 1);
      assert Enabled(run[i - 1], acts[i - 1]);
      StepKeepsInv(run[i - 1], acts[i - 1]);
    }
  }

  /** In every state of every run: a DELIVERED row has a successful attempt in the log
      for its event and consumer, a FAILED row a dead letter for them, and a PENDING
      row attempts left. */
  lemma {:induction false} StatusIsBacked(run: seq<State>, acts: seq<Action>, i: nat, id: nat)
    requires IsRun(run, acts) && i < |run| && id in run[i].rows
    ensures var s, r := run[i], run[i].rows[id];
      && r.sub in s.subs
      && var consumer := s.subs[r.sub].consumer;
      && (r.status == Delivered ==> Attempt(r.event, consumer, true) in s.log)
      && (r.status == Failed ==> (r.event, consumer) in s.dlq)
      && (r.status == Pending ==> r.attempts < r.max)
  {
    RunsKeepInv(run, acts, i);
    assert Backed(run[i], run[i].rows[id]);
  }

  /** A dead letter's count becomes the greater of the two, and no other changes. */
  lemma {:induction false} UpsertKeepsGreater(dlq: map<(nat, string), nat>, event: nat, consumer: string, count: nat)
    ensures var d, k := Upsert(dlq, event, consumer, count), (event, consumer);
      && k in d && d[k] >= count && (k in dlq ==> d[k] >= dlq[k]) && (d[k] == count || (k in dlq && d[k] == dlq[k]))
      && d.Keys == dlq.Keys + {k} && forall l | l in dlq && l != k :: d[l] == dlq[l]
  {
  }

  /** A row enqueued now is due at once, with no attempt made of its five. */
  lemma {:induction false} EnqueuedIsReady(s: State, a: Action)
    requires Enabled(s, a) && a.Enqueue?
    ensures Ready(Do(s, a), a.id) && Do(s, a).rows[a.id].attempts == 0 && Do(s, a).rows[a.id].max == 5
  {
  }

  /** A post is logged once, with its event, consumer and answer, and counted; to an inactive
      subscription none is made, and the attempt fails. */
  lemma {:induction false} PostIsLogged(s: State, w: nat, answer: bool)
    requires Enabled(s, Post(w, answer))
    ensures var item, sub, s' := Current(s, w), s.workers[w].phase.found.value, DoPost(s, w, answer);
      && s'.workers[w].phase == Answered(sub, answer && sub.active)
      && |s'.log| == |s.log| + (if sub.active then 1 else 0) && s.log <= s'.log
      && (sub.active ==>
            var a := s'.log[|s.log|];
            a.event == item.event && a.consumer == sub.consumer && a.success == answer && Posts(s', item.id) == Posts(s, item.id) + 1)
  {
  }

  /** The seconds to wait after `n` failed attempts. */
  function Wait(n: nat): nat {
    if n > 5 then 60 else if n == 5 then 32 else if n == 4 then 16 else if n == 3 then 8 else if n == 2 then 4 else 2
  }

  /** The attempt that a worker settles: its row is due again after 2, 4, 8, 16, 32 and then
      60 seconds, or is at its end, and then its dead letter counts all its attempts. */
  lemma {:induction false} SettledAttempt(s: State, w: nat)
    requires Enabled(s, Finish(w)) && s.workers[w].phase.Answered? && Current(s, w).id in s.rows
    ensures var item, sub, ok, s' := Current(s, w), s.workers[w].phase.sub, s.workers[w].phase.ok, DoFinish(s, w);
      var n, r := item.attempts + 1, s'.rows[item.id];
      && (ok ==> r.status == Delivered && r.attempts == s.rows[item.id].attempts + 1 && s'.dlq == s.dlq)
      && (!ok && n < item.max ==> r.status == Pending && r.attempts == n && s'.dlq == s.dlq && r.retryAt == s.now + Wait(n))
      && (!ok && n >= item.max ==> r.status == Failed && r.attempts == n && (item.event, sub.consumer) in s'.dlq && s'.dlq[(item.event, sub.consumer)] >= n)
  {
    BackoffMeans(Current(s, w).attempts + 1);
  }

  lemma {:induction false} BackoffMeans(n: nat)
    requires n > 0
    ensures Backoff(n) == Wait(n)
  {
    if n > 5 { PowersGrow(6, n); }
    assert Pow2(1) == 2 && Pow2(2) == 4 && Pow2(3) == 8;
    assert Pow2(4) == 16 && Pow2(5) == 32 && Pow2(6) == 64;
  }

  lemma {:induction false} PowersGrow(m: nat, n: nat)
    requires m <= n
    ensures Pow2(m) <= Pow2(n)
    decreases n
  {
    if m < n { PowersGrow(m, n - 1); }
  }

  lemma {:induction false} UpsertGrows(dlq: map<(nat, string), nat>, event: nat, consumer: string, count: nat)
    ensures var d := Upsert(dlq, event, consumer, count); forall k | k in dlq :: k in d && dlq[k] <= d[k]
  {
  }

  /** The log is append-only, and no dead letter disappears or has its count lowered. */
  lemma {:induction false} EvidenceGrows(s: State, a: Action)
    requires Enabled(s, a)
    ensures var s' := Do(s, a);
      && s.log <= s'.log
      && forall k | k in s.dlq :: k in s'.dlq && s.dlq[k] <= s'.dlq[k]
  {
    match a
    case InlinePost(t, id, sub, event, ok) => UpsertGrows(s.dlq, event, s.subs[sub].consumer, 1);
    case Finish(w) =>
      var item, p := Current(s, w), s.workers[w].phase;
      if p.Answered? { UpsertGrows(s.dlq, item.event, p.sub.consumer, item.attempts + 1); }
    case _ =>
  }
}
