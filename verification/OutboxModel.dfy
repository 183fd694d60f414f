/** The webhook outbox as a state machine over committed tables: workers, requests
    that deliver inline, dead-letter replays and crashes interleave commit by commit. */
module OutboxModel {
  import opened Texts

  datatype Status = Pending | Delivering | Delivered | Failed

  datatype Row = Row(sub: nat, event: nat, status: Status, attempts: nat, max: nat, retryAt: int, created: int)

  datatype Sub = Sub(consumer: string, active: bool)

  /** One line of the append-only delivery log. */
  datatype Attempt = Attempt(event: nat, consumer: string, success: bool)

  /** An outbox row as a worker read it when it took its batch. */
  datatype Item = Item(id: nat, sub: nat, event: nat, attempts: nat, max: nat)

  /** How far a worker is with the first item of its batch. */
  datatype Phase =
    | Idle
    | Marked
    | Looked(found: Option<Sub>)
    | Answered(sub: Sub, ok: bool)

  datatype Worker = Worker(batch: seq<Item>, phase: Phase)

  /** The status an inline delivery has decided and not committed yet. */
  datatype Verdict = Verdict(id: nat, ok: bool)

  datatype State = State(
    rows: map<nat, Row>,
    subs: map<nat, Sub>,
    log: seq<Attempt>,
    dlq: map<(nat, string), nat>,      // attempt count by event and consumer
    workers: map<nat, Worker>,
    inlines: map<nat, Option<Verdict>>,
    now: int,
    rowIds: set<nat>,                  // ids ever given to an outbox row
    subIds: set<nat>,                  // ids ever given to a subscription
    picks: map<nat, seq<int>>,         // history: when a worker started on a row
    posts: map<nat, nat>)              // history: how often a worker posted a row

  const EMPTY: State := State(map[], map[], [], map[], map[], map[], 0, {}, {}, map[], map[])

  const MAX_ATTEMPTS: nat := 5

  datatype Action =
    | Tick(seconds: nat)
    | AddSub(id: nat, newSub: Sub)
    | SetActive(id: nat, active: bool)
    | DeleteSub(id: nat)
    | Enqueue(id: nat, sub: nat, event: nat, created: int)
    | StartInline(t: nat)
    | InlinePost(t: nat, id: nat, sub: nat, event: nat, ok: bool)
    | EndInline(t: nat)
    | CrashInline(t: nat)
    | Poll(w: nat, ids: seq<nat>)
    | Mark(w: nat)
    | Look(w: nat)
    | Post(w: nat, ok: bool)
    | Finish(w: nat)
    | Stop(w: nat)
    | Crash(w: nat)
    | Replay(sub: nat, event: nat, ok: bool)

  // ---- Retry delays ----

  function Pow2(n: nat): (r: nat)
    ensures r >= 1
  {
    if n == 0 then 1 else 2 * Pow2(n - 1)
  }

  function Backoff(attempts: nat): nat {
    var d := Pow2(if attempts < 1 then 1 else attempts);
    if d < 60 then d else 60
  }

  // ---- Table updates ----

  function Picks(s: State, id: nat): seq<int> { if id in s.picks then s.picks[id] else [] }

  function Posts(s: State, id: nat): nat { if id in s.posts then s.posts[id] else 0 }

  /** The upsert keeps the greater attempt count. */
  function Upsert(dlq: map<(nat, string), nat>, event: nat, consumer: string, count: nat): map<(nat, string), nat> {
    var k := (event, consumer);
    dlq[k := if k in dlq && dlq[k] > count then dlq[k] else count]
  }

  /** An UPDATE by id: nothing happens when the row is gone. */
  function SetStatus(rows: map<nat, Row>, id: nat, status: Status): map<nat, Row> {
    if id in rows then rows[id := rows[id].(status := status)] else rows
  }

  function Settle(rows: map<nat, Row>, v: Option<Verdict>): map<nat, Row> {
    if v.None? || v.value.id !in rows then rows
    else
      var r := rows[v.value.id];
      rows[v.value.id := r.(status := if v.value.ok then Delivered else Failed, attempts := r.attempts + 1)]
  }

  /** A new row is due at once and created when its transaction began. */
  function NewRow(sub: nat, event: nat, created: int): Row { Row(sub, event, Pending, 0, MAX_ATTEMPTS, created, created) }

  predicate Ready(s: State, id: nat) {
    id in s.rows && s.rows[id].status == Pending && s.rows[id].retryAt <= s.now
  }

  function ItemOf(s: State, id: nat): Item
    requires id in s.rows
  {
    var r := s.rows[id];
    Item(id, r.sub, r.event, r.attempts, r.max)
  }

  function Items(s: State, ids: seq<nat>): (items: seq<Item>)
    requires forall i | 0 <= i < |ids| :: ids[i] in s.rows
    ensures |items| == |ids| && forall i | 0 <= i < |ids| :: items[i] == ItemOf(s, ids[i])
  {
    if ids == [] then [] else [ItemOf(s, ids[0])] + Items(s, ids[1..])
  }

  function Current(s: State, w: nat): Item
    requires w in s.workers && s.workers[w].batch != []
  {
    s.workers[w].batch[0]
  }

  // ---- Steps ----

  ghost predicate Distinct(ids: seq<nat>) { forall i, j | 0 <= i < j < |ids| :: ids[i] != ids[j] }

  predicate Busy(s: State, w: nat) { w in s.workers && s.workers[w].batch != [] }

  ghost predicate Enabled(s: State, a: Action) {
    match a
    case Tick(_) => true
    case AddSub(id, _) => id !in s.subIds
    case SetActive(id, _) => id in s.subs
    case DeleteSub(id) => id in s.subs
    case Enqueue(id, sub, _, created) => id !in s.rowIds && sub in s.subs && created <= s.now
    case StartInline(t) => t !in s.inlines
    case InlinePost(t, id, sub, _, _) => t in s.inlines && id !in s.rowIds && sub in s.subs
    case EndInline(t) => t in s.inlines
    case CrashInline(t) => t in s.inlines
    case Poll(w, ids) => w !in s.workers && Distinct(ids) && forall i | 0 <= i < |ids| :: Ready(s, ids[i])
    case Mark(w) => Busy(s, w) && s.workers[w].phase.Idle?
    case Look(w) => Busy(s, w) && s.workers[w].phase.Marked?
    case Post(w, _) => Busy(s, w) && s.workers[w].phase.Looked? && s.workers[w].phase.found.Some?
    case Finish(w) => Busy(s, w) && (s.workers[w].phase.Answered? || s.workers[w].phase == Looked(None))
    case Stop(w) => w in s.workers && s.workers[w].batch == []
    case Crash(w) => w in s.workers
    case Replay(sub, event, _) => sub in s.subs && (event, s.subs[sub].consumer) in s.dlq
  }

  function SetPhase(s: State, w: nat, p: Phase): State
    requires w in s.workers
  {
    s.(workers := s.workers[w := s.workers[w].(phase := p)])
  }

  /** Deleting a subscription deletes its outbox rows with it. */
  function DoDelete(s: State, id: nat): State {
    s.(subs := s.subs - {id}, rows := map r | r in s.rows && s.rows[r].sub != id :: s.rows[r])
  }

  function DoInlinePost(s: State, t: nat, id: nat, sub: nat, event: nat, ok: bool): State
    requires t in s.inlines && sub in s.subs
  {
    var consumer := s.subs[sub].consumer;
    s.(rows := Settle(s.rows, s.inlines[t])[id := NewRow(sub, event, s.now)],
       log := s.log + [Attempt(event, consumer, ok)],
       dlq := if ok then s.dlq else Upsert(s.dlq, event, consumer, 1),
       inlines := s.inlines[t := Some(Verdict(id, ok))],
       rowIds := s.rowIds + {id})
  }

  function DoMark(s: State, w: nat): State
    requires Busy(s, w)
  {
    var id := Current(s, w).id;
    SetPhase(s, w, Marked).(
      rows := SetStatus(s.rows, id, Delivering),
      picks := s.picks[id := Picks(s, id) + [s.now]])
  }

  /** An inactive subscription is not posted to, and that counts as a failure. */
  function DoPost(s: State, w: nat, ok: bool): State
    requires Busy(s, w) && s.workers[w].phase.Looked? && s.workers[w].phase.found.Some?
  {
    var item, sub := Current(s, w), s.workers[w].phase.found.value;
    SetPhase(s, w, Answered(sub, sub.active && ok)).(
      log := if sub.active then s.log + [Attempt(item.event, sub.consumer, ok)] else s.log,
      posts := if sub.active then s.posts[item.id := Posts(s, item.id) + 1] else s.posts)
  }

  function Outcome(s: State, r: Row, item: Item, p: Phase): Row {
    if !p.Answered? then r.(status := Failed)
    else if p.ok then r.(status := Delivered, attempts := r.attempts + 1)
    else if item.attempts + 1 >= item.max then r.(status := Failed, attempts := item.attempts + 1)
    else r.(status := Pending, attempts := item.attempts + 1, retryAt := s.now + Backoff(item.attempts + 1))
  }

  function DoFinish(s: State, w: nat): State
    requires Busy(s, w)
  {
    var item, p := Current(s, w), s.workers[w].phase;
    s.(rows := if item.id in s.rows then s.rows[item.id := Outcome(s, s.rows[item.id], item, p)] else s.rows,
       dlq := if p.Answered? && !p.ok && item.attempts + 1 >= item.max
              then Upsert(s.dlq, item.event, p.sub.consumer, item.attempts + 1) else s.dlq,
       workers := s.workers[w := Worker(s.workers[w].batch[1..], Idle)])
  }

  function Do(s: State, a: Action): State
    requires Enabled(s, a)
  {
    match a
    case Tick(d) => s.(now := s.now + d)
    case AddSub(id, sub) => s.(subs := s.subs[id := sub], subIds := s.subIds + {id})
    case SetActive(id, active) => s.(subs := s.subs[id := s.subs[id].(active := active)])
    case DeleteSub(id) => DoDelete(s, id)
    case Enqueue(id, sub, event, created) => s.(rows := s.rows[id := NewRow(sub, event, created)], rowIds := s.rowIds + {id})
    case StartInline(t) => s.(inlines := s.inlines[t := None])
    case InlinePost(t, id, sub, event, ok) => DoInlinePost(s, t, id, sub, event, ok)
    case EndInline(t) => s.(rows := Settle(s.rows, s.inlines[t]), inlines := s.inlines - {t})
    case CrashInline(t) => s.(inlines := s.inlines - {t})
    case Poll(w, ids) => s.(workers := s.workers[w := Worker(Items(s, ids), Idle)])
    case Mark(w) => DoMark(s, w)
    case Look(w) =>
      var sub := Current(s, w).sub;
      SetPhase(s, w, Looked(if sub in s.subs then Some(s.subs[sub]) else None))
    case Post(w, ok) => DoPost(s, w, ok)
    case Finish(w) => DoFinish(s, w)
    case Stop(w) => s.(workers := s.workers - {w})
    case Crash(w) => s.(workers := s.workers - {w})
    case Replay(sub, event, ok) =>
      if s.subs[sub].active then s.(log := s.log + [Attempt(event, s.subs[sub].consumer, ok)]) else s
  }

  ghost predicate IsRun(run: seq<State>, acts: seq<Action>) {
    && |run| == |acts| + 1 && run[0] == EMPTY
    && forall i | 0 <= i < |acts| :: Enabled(run[i], acts[i]) && run[i + 1] == Do(run[i], acts[i])
  }
}
