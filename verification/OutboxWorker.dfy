/** The worker's poll and the delivery loop as they run, table update by table update,
    and the proof that a poll nobody interrupts is a run of the outbox protocol. */
module OutboxWorker {
  import opened Texts
  import opened OutboxModel
  import opened OutboxSafety
  import opened OneWorker
  import opened OutboxDrain

  // ---- What one item, and one batch, does to the tables ----

  function Marking(s: State, id: nat): State {
    s.(rows := SetStatus(s.rows, id, Delivering), picks := s.picks[id := Picks(s, id) + [s.now]])
  }

  function Posting(s: State, item: Item, sub: Sub, ok: bool): State {
    s.(log := if sub.active then s.log + [Attempt(item.event, sub.consumer, ok)] else s.log,
       posts := if sub.active then s.posts[item.id := Posts(s, item.id) + 1] else s.posts)
  }

  function Closing(s: State, item: Item, p: Phase): State {
    s.(rows := if item.id in s.rows then s.rows[item.id := Outcome(s, s.rows[item.id], item, p)] else s.rows,
       dlq := if p.Answered? && !p.ok && item.attempts + 1 >= item.max
              then Upsert(s.dlq, item.event, p.sub.consumer, item.attempts + 1) else s.dlq)
  }

  function Processed(s: State, item: Item, ok: bool): State {
    var s1 := Marking(s, item.id);
    if item.sub !in s1.subs then Closing(s1, item, Looked(None))
    else
      var sub := s1.subs[item.sub];
      Closing(Posting(s1, item, sub, ok), item, Answered(sub, sub.active && ok))
  }

  /** `answers[i]` is whether the target accepts the post for item i. */
  function Polled(s: State, items: seq<Item>, answers: seq<bool>): State
    requires |items| == |answers|
    decreases |items|
  {
    if items == [] then s else Polled(Processed(s, items[0], answers[0]), items[1..], answers[1..])
  }

  lemma {:induction false} PolledStep(s: State, items: seq<Item>, answers: seq<bool>, i: nat, m: State)
    requires |items| == |answers| && i < |items|
    requires Polled(m, items[i..], answers[i..]) == Polled(s, items, answers)
    ensures Polled(Processed(m, items[i], answers[i]), items[i + 1..], answers[i + 1..]) == Polled(s, items, answers)
  {
    assert items[i..][1..] == items[i + 1..] && answers[i..][1..] == answers[i + 1..];
  }

  // ---- It is a run of the protocol ----

  function Having(s: State, batch: seq<Item>, p: Phase): State {
    s.(workers := s.workers[0 := Worker(batch, p)])
  }

  lemma {:induction false} MarkLeads(s: State, batch: seq<Item>)
    requires batch != []
    ensures Leads(Having(s, batch, Idle), [Mark(0)], Having(Marking(s, batch[0].id), batch, Marked))
  {
    LeadsOne(Having(s, batch, Idle), Mark(0));
    assert Do(Having(s, batch, Idle), Mark(0)) == Having(Marking(s, batch[0].id), batch, Marked);
  }

  lemma {:induction false} LookLeads(s: State, batch: seq<Item>)
    requires batch != []
    ensures Leads(Having(s, batch, Marked), [Look(0)],
      Having(s, batch, Looked(if batch[0].sub in s.subs then Some(s.subs[batch[0].sub]) else None)))
  {
    LeadsOne(Having(s, batch, Marked), Look(0));
    assert Do(Having(s, batch, Marked), Look(0))
      == Having(s, batch, Looked(if batch[0].sub in s.subs then Some(s.subs[batch[0].sub]) else None));
  }

  lemma {:induction false} PostLeads(s: State, batch: seq<Item>, sub: Sub, ok: bool)
    requires batch != []
    ensures Leads(Having(s, batch, Looked(Some(sub))), [Post(0, ok)],
      Having(Posting(s, batch[0], sub, ok), batch, Answered(sub, sub.active && ok)))
  {
    LeadsOne(Having(s, batch, Looked(Some(sub))), Post(0, ok));
    assert Do(Having(s, batch, Looked(Some(sub))), Post(0, ok))
      == Having(Posting(s, batch[0], sub, ok), batch, Answered(sub, sub.active && ok));
  }

  lemma {:induction false} FinishLeads(s: State, batch: seq<Item>, p: Phase)
    requires batch != [] && (p.Answered? || p == Looked(None))
    ensures Leads(Having(s, batch, p), [Finish(0)], Having(Closing(s, batch[0], p), batch[1..], Idle))
  {
    LeadsOne(Having(s, batch, p), Finish(0));
    assert Do(Having(s, batch, p), Finish(0)) == Having(Closing(s, batch[0], p), batch[1..], Idle);
  }

  lemma {:induction false} ItemLeads(s: State, batch: seq<Item>, ok: bool) returns (acts: seq<Action>)
    requires batch != []
    ensures Leads(Having(s, batch, Idle), acts, Having(Processed(s, batch[0], ok), batch[1..], Idle))
  {
    var item := batch[0];
    var s1 := Marking(s, item.id);
    MarkLeads(s, batch);
    LookLeads(s1, batch);
    var found := if item.sub in s1.subs then Some(s1.subs[item.sub]) else None;
    LeadsOn(Having(s, batch, Idle), [Mark(0)], Having(s1, batch, Marked), [Look(0)], Having(s1, batch, Looked(found)));
    var start := [Mark(0)] + [Look(0)];
    if found.Some? {
      var sub := found.value;
      PostLeads(s1, batch, sub, ok);
      var s2, p := Posting(s1, item, sub, ok), Answered(sub, sub.active && ok);
      LeadsOn(Having(s, batch, Idle), start, Having(s1, batch, Looked(found)), [Post(0, ok)], Having(s2, batch, p));
      FinishLeads(s2, batch, p);
      acts := start + [Post(0, ok)] + [Finish(0)];
      LeadsOn(Having(s, batch, Idle), start + [Post(0, ok)], Having(s2, batch, p), [Finish(0)],
              Having(Closing(s2, item, p), batch[1..], Idle));
    } else {
      FinishLeads(s1, batch, Looked(None));
      acts := start + [Finish(0)];
      LeadsOn(Having(s, batch, Idle), start, Having(s1, batch, Looked(None)), [Finish(0)],
              Having(Closing(s1, item, Looked(None)), batch[1..], Idle));
    }
  }

  lemma {:induction false} BatchLeads(s: State, items: seq<Item>, answers: seq<bool>) returns (acts: seq<Action>)
    requires |items| == |answers|
    ensures Leads(Having(s, items, Idle), acts, Having(Polled(s, items, answers), [], Idle))
    decreases |items|
  {
    if items == [] {
      acts := [];
    } else {
      var first := ItemLeads(s, items, answers[0]);
      var rest := BatchLeads(Processed(s, items[0], answers[0]), items[1..], answers[1..]);
      acts := first + rest;
      LeadsOn(Having(s, items, Idle), first, Having(Processed(s, items[0], answers[0]), items[1..], Idle), rest,
              Having(Polled(s, items, answers), [], Idle));
    }
  }

  lemma {:induction false} ProcessedKeepsWorkers(s: State, item: Item, ok: bool)
    ensures Processed(s, item, ok).workers == s.workers
  {
  }

  lemma {:induction false} PolledKeepsWorkers(s: State, items: seq<Item>, answers: seq<bool>)
    requires |items| == |answers|
    ensures Polled(s, items, answers).workers == s.workers
    decreases |items|
  {
    if items != [] {
      ProcessedKeepsWorkers(s, items[0], answers[0]);
      PolledKeepsWorkers(Processed(s, items[0], answers[0]), items[1..], answers[1..]);
    }
  }

  ghost predicate AllReady(s: State, ids: seq<nat>) {
    forall i | 0 <= i < |ids| :: ids[i] in s.rows && Ready(s, ids[i])
  }

  /** Taking a batch and processing it without interruption is a crash-free run of the
      protocol by one worker. */
  lemma {:induction false} PollLeads(s: State, ids: seq<nat>, answers: seq<bool>)
    requires 0 !in s.workers && Distinct(ids) && |ids| == |answers| && AllReady(s, ids)
    ensures exists acts :: Leads(s, acts, Polled(s, Items(s, ids), answers))
  {
    var items := Items(s, ids);
    var end := Polled(s, items, answers);
    PolledKeepsWorkers(s, items, answers);
    TakingLeads(s, ids);
    var acts := BatchLeads(s, items, answers);
    LeadsOn(s, [Poll(0, ids)], Having(s, items, Idle), acts, Having(end, [], Idle));
    StoppingLeads(end);
    LeadsOn(s, [Poll(0, ids)] + acts, Having(end, [], Idle), [Stop(0)], end);
  }

  lemma {:induction false} TakingLeads(s: State, ids: seq<nat>)
    requires 0 !in s.workers && Distinct(ids) && AllReady(s, ids)
    ensures Leads(s, [Poll(0, ids)], Having(s, Items(s, ids), Idle))
  {
    LeadsOne(s, Poll(0, ids));
    assert Do(s, Poll(0, ids)) == Having(s, Items(s, ids), Idle);
  }

  lemma {:induction false} StoppingLeads(end: State)
    requires 0 !in end.workers
    ensures Leads(Having(end, [], Idle), [Stop(0)], end)
  {
    LeadsOne(Having(end, [], Idle), Stop(0));
    assert Do(Having(end, [], Idle), Stop(0)) == end;
  }

  lemma {:induction false} LeadsKeeps(s: State, acts: seq<Action>, s': State)
    requires Inv(s) && OneInv(s) && Leads(s, acts, s')
    ensures Inv(s') && OneInv(s')
    decreases |acts|
  {
    if acts != [] {
      StepKeepsInv(s, acts[0]);
      StepKeepsOne(s, acts[0]);
      LeadsKeeps(Do(s, acts[0]), acts[1..], s');
    }
  }

  // ---- The delivery loop ----

  /** How many posts a delivery makes: up to the first accepted one, at most `max`. */
  function Tries(answers: seq<bool>, max: nat): (n: nat)
    requires max <= |answers|
    ensures n <= max
    ensures forall k | 0 <= k < n - 1 :: !answers[k]
    ensures n < max ==> n > 0 && answers[n - 1]
  {
    if max == 0 then 0 else if answers[0] then 1 else
      var rest := Tries(answers[1..], max - 1);
      assert forall k | 0 < k < |answers| :: answers[1..][k - 1] == answers[k];
      rest + 1
  }

  function LogOf(event: nat, consumer: string, answers: seq<bool>): (log: seq<Attempt>)
    ensures |log| == |answers| && forall i | 0 <= i < |log| :: log[i] == Attempt(event, consumer, answers[i])
  {
    seq(|answers|, i requires 0 <= i < |answers| => Attempt(event, consumer, answers[i]))
  }

  /** The selected rows, as read. */
  function Fetch(rows: map<nat, Row>, ids: seq<nat>): (items: seq<Item>)
    requires forall i | 0 <= i < |ids| :: ids[i] in rows
    ensures |items| == |ids|
  {
    seq(|ids|, i requires 0 <= i < |ids| =>
      var r := rows[ids[i]]; Item(ids[i], r.sub, r.event, r.attempts, r.max))
  }

  /** The tables after a request has delivered one new row itself. */
  function InlineDelivered(s: State, id: nat, sub: nat, event: nat, ok: bool): State
    requires sub in s.subs
  {
    var consumer := s.subs[sub].consumer;
    s.(rows := s.rows[id := Row(sub, event, if ok then Delivered else Failed, 1, MAX_ATTEMPTS, s.now, s.now)],
       log := s.log + [Attempt(event, consumer, ok)],
       dlq := if ok then s.dlq else Upsert(s.dlq, event, consumer, 1),
       rowIds := s.rowIds + {id})
  }

  /** The tables between the two commits of an inline delivery. */
  function InlinePosted(s: State, t: nat, id: nat, sub: nat, event: nat, ok: bool): State
    requires sub in s.subs
  {
    InlineDelivered(s, id, sub, event, ok).(
      rows := s.rows[id := NewRow(sub, event, s.now)], inlines := s.inlines[t := Some(Verdict(id, ok))])
  }

  lemma {:induction false} InlineFirstCommit(s: State, t: nat, id: nat, sub: nat, event: nat, ok: bool)
    requires sub in s.subs
    ensures DoInlinePost(s.(inlines := s.inlines[t := None]), t, id, sub, event, ok) == InlinePosted(s, t, id, sub, event, ok)
  {
    assert s.inlines[t := None][t := Some(Verdict(id, ok))] == s.inlines[t := Some(Verdict(id, ok))];
  }

  lemma {:induction false} InlineSecondCommit(s: State, t: nat, id: nat, sub: nat, event: nat, ok: bool)
    requires sub in s.subs && t !in s.inlines
    ensures Do(InlinePosted(s, t, id, sub, event, ok), EndInline(t)) == InlineDelivered(s, id, sub, event, ok)
  {
    assert s.inlines[t := Some(Verdict(id, ok))] - {t} == s.inlines;
  }

  /** That is the protocol's inline delivery when nobody comes between its two commits. */
  lemma {:induction false} InlineIsProtocol(s: State, t: nat, id: nat, sub: nat, event: nat, ok: bool)
    requires t !in s.inlines && id !in s.rowIds && sub in s.subs
    ensures Do(Do(s, StartInline(t)), InlinePost(t, id, sub, event, ok)) == InlinePosted(s, t, id, sub, event, ok)
    ensures Do(InlinePosted(s, t, id, sub, event, ok), EndInline(t)) == InlineDelivered(s, id, sub, event, ok)
  {
    InlineFirstCommit(s, t, id, sub, event, ok);
    InlineSecondCommit(s, t, id, sub, event, ok);
  }

  /** So the row it leaves is backed, and every other row still is. */
  lemma {:induction false} InlineKeepsInv(s: State, t: nat, id: nat, sub: nat, event: nat, ok: bool)
    requires Inv(s) && t !in s.inlines && id !in s.rowIds && sub in s.subs
    ensures Inv(InlineDelivered(s, id, sub, event, ok))
  {
    var s1 := s.(inlines := s.inlines[t := None]);
    PlainKeeps(s, StartInline(t));
    InlinePostKeeps(s1, t, id, sub, event, ok);
    InlineFirstCommit(s, t, id, sub, event, ok);
    InlineSecondCommit(s, t, id, sub, event, ok);
    EndInlineKeeps(InlinePosted(s, t, id, sub, event, ok), EndInline(t));
  }

  /** The answer of a replay. */
  datatype Replayed = NotFound | NoSubscription | Sent(ok: bool)

  class Tables {
    var rows: map<nat, Row>
    var subs: map<nat, Sub>
    var log: seq<Attempt>
    var dlq: map<(nat, string), nat>
    var now: int
    ghost var rowIds: set<nat>
    ghost var subIds: set<nat>
    ghost var picks: map<nat, seq<int>>
    ghost var posts: map<nat, nat>

    ghost function Abs(): State
      reads this
    {
      State(rows, subs, log, dlq, map[], map[], now, rowIds, subIds, picks, posts)
    }

    ghost predicate Valid()
      reads this
    {
      Inv(Abs()) && OneInv(Abs())
    }

    constructor ()
      ensures Valid() && Abs() == EMPTY
    {
      rows, subs, log, dlq, now := map[], map[], [], map[], 0;
      rowIds, subIds, picks, posts := {}, {}, map[], map[];
    }

    /** Adds a dead letter, or keeps the greater attempt count of the one there is. */
    method UpsertDlq(event: nat, consumer: string, count: nat)
      modifies this`dlq
      ensures dlq == Upsert(old(dlq), event, consumer, count)
      ensures (event, consumer) in dlq && dlq[(event, consumer)] >= count
      ensures (event, consumer) in old(dlq) ==> dlq[(event, consumer)] >= old(dlq)[(event, consumer)]
      ensures dlq[(event, consumer)] == count || ((event, consumer) in old(dlq) && dlq == old(dlq))
    {
      var k := (event, consumer);
      if k in dlq {
        if dlq[k] < count { dlq := dlq[k := count]; }
      } else {
        dlq := dlq[k := count];
      }
    }

    /** Posts until the target accepts or `max` posts are made; every post is logged. An
        inactive subscription is neither posted to nor dead-lettered here. */
    method DeliverWithRetry(event: nat, sub: Sub, answers: seq<bool>, max: nat, persist: bool) returns (ok: bool)
      requires max <= |answers|
      modifies this`log, this`dlq
      ensures ok <==> sub.active && exists k | 0 <= k < max :: answers[k]
      ensures log == if sub.active then old(log) + LogOf(event, sub.consumer, answers[..Tries(answers, max)]) else old(log)
      ensures dlq == if sub.active && !ok && persist && max > 0 then Upsert(old(dlq), event, sub.consumer, max) else old(dlq)
    {
      if !sub.active { return false; }
      assert LogOf(event, sub.consumer, []) == [];
      assert answers[..0] == [];
      for attempt := 1 to max + 1
        invariant log == old(log) + LogOf(event, sub.consumer, answers[..attempt - 1])
        invariant forall k | 0 <= k < attempt - 1 :: !answers[k]
        invariant dlq == if persist && max > 0 && attempt == max + 1 then Upsert(old(dlq), event, sub.consumer, max) else old(dlq)
      {
        LogStep(event, sub.consumer, answers, attempt - 1);
        if answers[attempt - 1] {
          log := log + [Attempt(event, sub.consumer, true)];
          TriesIs(answers, max, attempt);
          return true;
        }
        log := log + [Attempt(event, sub.consumer, false)];
        if attempt == max && persist {
          UpsertDlq(event, sub.consumer, attempt);
        }
      }
      TriesIs(answers, max, max);
      return false;
    }

    /** The request's own delivery of one new row: insert it, post it once with the dead
        letter on failure, and settle it. */
    method DeliverInline(id: nat, sub: nat, event: nat, answer: bool)
      requires id !in rowIds && id !in rows && sub in subs && subs[sub].active
      modifies this
      ensures Abs() == InlineDelivered(old(Abs()), id, sub, event, answer)
    {
      rows := rows[id := Row(sub, event, Pending, 0, MAX_ATTEMPTS, now, now)];
      rowIds := rowIds + {id};
      var ok := DeliverWithRetry(event, subs[sub], [answer], 1, true);
      assert [answer][..1] == [answer] && LogOf(event, subs[sub].consumer, [answer]) == [Attempt(event, subs[sub].consumer, answer)];
      if ok {
        rows := rows[id := rows[id].(status := Delivered, attempts := rows[id].attempts + 1)];
      } else {
        rows := rows[id := rows[id].(status := Failed, attempts := rows[id].attempts + 1)];
      }
    }

    /** Replays a dead letter to the subscription `found` for its endpoint and consumer: one
        post, one log line, and never a change to the dead letters. */
    method ReplayDlqEntry(event: nat, consumer: string, found: Option<nat>, answer: bool) returns (r: Replayed)
      requires found.Some? ==> found.value in subs && subs[found.value].consumer == consumer
      modifies this`log, this`dlq
      ensures r == if (event, consumer) !in old(dlq) then NotFound
        else if found.None? then NoSubscription
        else Sent(subs[found.value].active && answer)
      ensures dlq == old(dlq)
      ensures if r.Sent? then Abs() == Do(old(Abs()), Replay(found.value, event, answer)) else log == old(log)
    {
      if (event, consumer) !in dlq { return NotFound; }
      if found.None? { return NoSubscription; }
      var ok := DeliverWithRetry(event, subs[found.value], [answer], 1, false);
      assert [answer][..1] == [answer] && LogOf(event, consumer, [answer]) == [Attempt(event, consumer, answer)];
      r := Sent(ok);
    }

    /** Writes the outcome of a delivery to the row, and a dead letter when it was the last. */
    method SettleItem(item: Item, sub: Sub, ok: bool)
      modifies this`rows, this`dlq
      ensures Abs() == Closing(old(Abs()), item, Answered(sub, ok))
    {
      if ok {
        if item.id in rows {
          rows := rows[item.id := rows[item.id].(status := Delivered, attempts := rows[item.id].attempts + 1)];
        }
      } else {
        var next := item.attempts + 1;
        if next >= item.max {
          if item.id in rows { rows := rows[item.id := rows[item.id].(status := Failed, attempts := next)]; }
          UpsertDlq(item.event, sub.consumer, next);
        } else if item.id in rows {
          rows := rows[item.id := rows[item.id].(status := Pending, attempts := next, retryAt := now + Backoff(next))];
        }
      }
    }

    /** Posts a row once. */
    method PostItem(item: Item, sub: Sub, answer: bool) returns (ok: bool)
      modifies this`log, this`dlq, this`posts
      ensures Abs() == Posting(old(Abs()), item, sub, answer) && ok == (sub.active && answer)
    {
      ghost var s := Abs();
      ok := DeliverWithRetry(item.event, sub, [answer], 1, false);
      assert [answer][..1] == [answer] && LogOf(item.event, sub.consumer, [answer]) == [Attempt(item.event, sub.consumer, answer)];
      if sub.active { posts := posts[item.id := Posts(s, item.id) + 1]; }
    }

    /** One item of a batch: mark it, look its subscription up, post once, settle it. */
    method ProcessItem(item: Item, answer: bool)
      modifies this
      ensures Abs() == Processed(old(Abs()), item, answer)
    {
      ghost var s := Abs();
      rows := SetStatus(rows, item.id, Delivering);
      picks := picks[item.id := Picks(s, item.id) + [now]];
      assert Abs() == Marking(s, item.id);
      if item.sub !in subs {
        rows := SetStatus(rows, item.id, Failed);
      } else {
        var sub := subs[item.sub];
        var ok := PostItem(item, sub, answer);
        SettleItem(item, sub, ok);
      }
    }

    /** Processes the ready rows a poll selected. */
    method PollOnce(ids: seq<nat>, answers: seq<bool>) returns (processed: nat)
      requires Valid() && Distinct(ids) && |answers| == |ids| && AllReady(Abs(), ids)
      modifies this
      ensures Valid() && Abs() == Polled(old(Abs()), Items(old(Abs()), ids), answers) && processed == |ids|
    {
      ghost var s := Abs();
      var items := Fetch(rows, ids);
      assert items == Items(s, ids);
      processed := 0;
      while processed < |items|
        invariant processed <= |items|
        invariant Polled(Abs(), items[processed..], answers[processed..]) == Polled(s, items, answers)
      {
        PolledStep(s, items, answers, processed, Abs());
        ProcessItem(items[processed], answers[processed]);
        processed := processed + 1;
      }
      PollLeads(s, ids, answers);
      ghost var acts :| Leads(s, acts, Polled(s, items, answers));
      LeadsKeeps(s, acts, Abs());
    }
  }

  lemma {:induction false} LogStep(event: nat, consumer: string, answers: seq<bool>, n: nat)
    requires n < |answers|
    ensures LogOf(event, consumer, answers[..n + 1]) == LogOf(event, consumer, answers[..n]) + [Attempt(event, consumer, answers[n])]
  {
  }

  lemma {:induction false} TriesIs(answers: seq<bool>, max: nat, n: nat)
    requires n <= max <= |answers| && forall k | 0 <= k < n - 1 :: !answers[k]
    requires if n < max then n > 0 && answers[n - 1] else n == max
    ensures Tries(answers, max) == n
  {
  }
}
