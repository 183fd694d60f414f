/** Without crashes one worker never leaves a row behind, and it can always bring a
    pending row to its end: delivered exactly when one of the remaining attempts
    succeeds, dead-lettered otherwise. */
module OutboxDrain {
  import opened Texts
  import opened OutboxModel
  import opened OutboxSafety
  import opened OneWorker

  // ---- Runs without crashes ----

  /** A row being delivered is in the worker's hand. */
  ghost predicate NoneLeft(s: State) {
    forall id | id in s.rows && s.rows[id].status == Delivering ::
      Busy(s, 0) && !s.workers[0].phase.Idle? && Current(s, 0).id == id
  }

  lemma {:induction false} FinishLeavesNone(s: State)
    requires Inv(s) && NoneLeft(s) && Busy(s, 0)
    requires s.workers[0].phase.Answered? || s.workers[0].phase == Looked(None)
    ensures NoneLeft(DoFinish(s, 0))
  {
    var s', item := DoFinish(s, 0), Current(s, 0);
    forall id | id in s'.rows ensures s'.rows[id].status != Delivering {
      if id == item.id { assert s'.rows[id] == Outcome(s, s.rows[id], item, s.workers[0].phase); }
    }
  }

  lemma {:induction false} MarkLeavesNone(s: State)
    requires NoneLeft(s) && Busy(s, 0) && s.workers[0].phase.Idle?
    ensures NoneLeft(DoMark(s, 0))
  {
  }

  lemma {:induction false} OtherLeavesNone(s: State, a: Action)
    requires NoneLeft(s) && Enabled(s, a) && Single(a) && !a.Crash? && !a.Mark? && !a.Finish? && !a.Poll?
    ensures NoneLeft(Do(s, a))
  {
  }

  lemma {:induction false} PollLeavesNone(s: State, a: Action)
    requires NoneLeft(s) && Enabled(s, a) && Single(a) && a.Poll?
    ensures NoneLeft(Do(s, a))
  {
  }

  lemma {:induction false} CalmRunsLeaveNone(run: seq<State>, acts: seq<Action>, i: nat)
    requires IsSingleRun(run, acts) && i < |run| && forall k | 0 <= k < |acts| :: !acts[k].Crash?
    ensures NoneLeft(run[i])
    decreases i
  {
    if i > 0 {
      var s, a := run[i - 1], acts[i - 1];
      CalmRunsLeaveNone(run, acts, i - 1);
      RunsKeepOne(run, acts, i - 1);
      assert Enabled(s, a) && Single(a) && run[i] == Do(s, a);
      if a.Mark? { MarkLeavesNone(s); }
      else if a.Finish? { FinishLeavesNone(s); }
      else if a.Poll? { PollLeavesNone(s, a); }
      else { OtherLeavesNone(s, a); }
    }
  }

  /** In a run without crashes, when the worker is not busy every row is PENDING with
      attempts left, DELIVERED or FAILED; a row picked `max` times is at its end. */
  lemma {:induction false} CalmRunsEndRows(run: seq<State>, acts: seq<Action>, i: nat, id: nat)
    requires IsSingleRun(run, acts) && i < |run| && forall k | 0 <= k < |acts| :: !acts[k].Crash?
    requires id in run[i].rows && !Busy(run[i], 0)
    ensures var r, picked := run[i].rows[id], |Picks(run[i], id)|;
      match r.status
      case Pending => picked == r.attempts < r.max
      case Delivering => false
      case _ => picked <= r.max
  {
    RunsKeepOne(run, acts, i);
    CalmRunsLeaveNone(run, acts, i);
    assert RowTraced(run[i], id);
  }

  // ---- Draining a row ----

  /** `acts`, one worker's and free of crashes, lead from `s` to `s'`. */
  ghost predicate Leads(s: State, acts: seq<Action>, s': State)
    decreases |acts|
  {
    if acts == [] then s' == s
    else Enabled(s, acts[0]) && Single(acts[0]) && !acts[0].Crash? && Leads(Do(s, acts[0]), acts[1..], s')
  }

  lemma {:induction false} LeadsOn(s: State, acts: seq<Action>, m: State, more: seq<Action>, s': State)
    requires Leads(s, acts, m) && Leads(m, more, s')
    ensures Leads(s, acts + more, s')
    decreases |acts|
  {
    if acts == [] {
      assert acts + more == more;
    } else {
      LeadsOn(Do(s, acts[0]), acts[1..], m, more, s');
      assert (acts + more)[0] == acts[0] && (acts + more)[1..] == acts[1..] + more;
    }
  }

  lemma {:induction false} LeadsOne(s: State, a: Action)
    requires Enabled(s, a) && Single(a) && !a.Crash?
    ensures Leads(s, [a], Do(s, a))
  {
    assert [a][1..] == [];
    assert Leads(Do(s, a), [], Do(s, a));
  }

  /** What is left of a row's life, as far as its deliveries decide it. */
  function Fate(active: bool, outcomes: seq<bool>): Status {
    if outcomes == [] then Failed
    else if active && outcomes[0] then Delivered
    else Fate(active, outcomes[1..])
  }

  lemma {:induction false} LeadsByPoll(s: State, id: nat)
    requires 0 !in s.workers && Ready(s, id)
    ensures Leads(s, [Poll(0, [id])], s.(workers := s.workers[0 := Worker([ItemOf(s, id)], Idle)]))
  {
    assert Items(s, [id]) == [ItemOf(s, id)] by { assert [id][1..] == []; }
    LeadsOne(s, Poll(0, [id]));
  }

  lemma {:induction false} LeadsByTick(s: State, wait: nat)
    ensures Leads(s, [Tick(wait)], s.(now := s.now + wait))
  {
    LeadsOne(s, Tick(wait));
  }

  /** Waiting for the retry time and taking the row. */
  lemma {:induction false} LeadsToTaken(s: State, id: nat) returns (acts: seq<Action>, s': State)
    requires 0 !in s.workers && id in s.rows && s.rows[id].status == Pending
    ensures Leads(s, acts, s') && s'.now >= s.now
    ensures s' == s.(now := s'.now, workers := s.workers[0 := Worker([ItemOf(s, id)], Idle)])
  {
    var wait: nat := if s.rows[id].retryAt > s.now then s.rows[id].retryAt - s.now else 0;
    var s1 := s.(now := s.now + wait);
    LeadsByTick(s, wait);
    s' := s1.(workers := s1.workers[0 := Worker([ItemOf(s, id)], Idle)]);
    LeadsByPoll(s1, id);
    acts := [Tick(wait)] + [Poll(0, [id])];
    LeadsOn(s, [Tick(wait)], s1, [Poll(0, [id])], s');
  }

  lemma {:induction false} LeadsToMarked(s: State, item: Item, before: map<nat, Worker>) returns (acts: seq<Action>, s': State)
    requires s.workers == before[0 := Worker([item], Idle)] && item.id in s.rows
    ensures Leads(s, acts, s')
    ensures s'.workers == before[0 := Worker([item], Marked)]
    ensures s'.rows == s.rows[item.id := s.rows[item.id].(status := Delivering)]
    ensures s'.subs == s.subs && s'.dlq == s.dlq && s'.posts == s.posts && s'.now == s.now
  {
    s' := DoMark(s, 0);
    LeadsOne(s, Mark(0));
    acts := [Mark(0)];
  }

  /** Reading the subscription and posting. */
  lemma {:induction false} LeadsToAnswered(s: State, item: Item, ok: bool) returns (acts: seq<Action>, s': State)
    requires 0 in s.workers && s.workers[0] == Worker([item], Marked) && item.sub in s.subs
    ensures Leads(s, acts, s')
    ensures var sub := s.subs[item.sub];
      && s'.workers == s.workers[0 := Worker([item], Answered(sub, sub.active && ok))]
      && s'.rows == s.rows && s'.subs == s.subs && s'.dlq == s.dlq && s'.now == s.now
      && s'.posts == if sub.active then s.posts[item.id := Posts(s, item.id) + 1] else s.posts
  {
    var sub := s.subs[item.sub];
    var s1 := s.(workers := s.workers[0 := Worker([item], Looked(Some(sub)))]);
    LeadsOne(s, Look(0));
    assert Do(s, Look(0)) == s1;
    s' := DoPost(s1, 0, ok);
    LeadsOne(s1, Post(0, ok));
    acts := [Look(0)] + [Post(0, ok)];
    LeadsOn(s, [Look(0)], s1, [Post(0, ok)], s');
    assert s'.workers == s.workers[0 := Worker([item], Answered(sub, sub.active && ok))];
  }

  lemma {:induction false} LeadsToFinished(s: State, item: Item, p: Phase, before: map<nat, Worker>) returns (acts: seq<Action>, s': State)
    requires 0 in s.workers && s.workers[0] == Worker([item], p) && p.Answered? && item.id in s.rows
    requires 0 !in before && s.workers == before[0 := Worker([item], p)]
    ensures Leads(s, acts, s')
    ensures s'.workers == before && s'.subs == s.subs && s'.posts == s.posts && s'.now == s.now
    ensures s'.rows == s.rows[item.id := Outcome(s, s.rows[item.id], item, p)]
    ensures !p.ok && item.attempts + 1 >= item.max ==> (item.event, p.sub.consumer) in s'.dlq
  {
    var s1 := DoFinish(s, 0);
    LeadsOne(s, Finish(0));
    assert [item][1..] == [];
    assert s1.workers[0] == Worker([], Idle);
    s' := s1.(workers := s1.workers - {0});
    LeadsOne(s1, Stop(0));
    acts := [Finish(0)] + [Stop(0)];
    LeadsOn(s, [Finish(0)], s1, [Stop(0)], s');
    assert s'.workers == before;
  }

  lemma {:induction false} LeadsToTakenAndMarked(s: State, id: nat) returns (acts: seq<Action>, s': State)
    requires 0 !in s.workers && id in s.rows && s.rows[id].status == Pending
    ensures Leads(s, acts, s')
    ensures s'.workers == s.workers[0 := Worker([ItemOf(s, id)], Marked)]
    ensures s'.rows == s.rows[id := s.rows[id].(status := Delivering)]
    ensures s'.subs == s.subs && s'.dlq == s.dlq && s'.posts == s.posts
  {
    var a0, s0 := LeadsToTaken(s, id);
    var a1, s1 := LeadsToMarked(s0, ItemOf(s, id), s.workers);
    LeadsOn(s, a0, s0, a1, s1);
    acts, s' := a0 + a1, s1;
  }

  /** Up to the answer. */
  lemma {:induction false} LeadsToAsked(s: State, id: nat, ok: bool) returns (acts: seq<Action>, s': State)
    requires 0 !in s.workers && id in s.rows && s.rows[id].status == Pending && s.rows[id].sub in s.subs
    ensures Leads(s, acts, s')
    ensures var sub := s.subs[s.rows[id].sub];
      && s'.workers == s.workers[0 := Worker([ItemOf(s, id)], Answered(sub, sub.active && ok))]
      && s'.rows == s.rows[id := s.rows[id].(status := Delivering)] && s'.subs == s.subs && s'.dlq == s.dlq
      && Posts(s', id) == Posts(s, id) + (if sub.active then 1 else 0)
  {
    var a1, s1 := LeadsToTakenAndMarked(s, id);
    var a2, s2 := LeadsToAnswered(s1, ItemOf(s, id), ok);
    LeadsOn(s, a1, s1, a2, s2);
    acts, s' := a1 + a2, s2;
  }

  /** One crash-free attempt at a pending row. */
  lemma {:induction false} LeadsThroughAttempt(s: State, id: nat, ok: bool) returns (acts: seq<Action>, s': State)
    requires 0 !in s.workers && id in s.rows && s.rows[id].status == Pending && s.rows[id].sub in s.subs
    ensures Leads(s, acts, s') && s'.workers == s.workers && s'.subs == s.subs && id in s'.rows
    ensures var r, sub := s.rows[id], s.subs[s.rows[id].sub];
      && s'.rows[id].(status := r.status, attempts := r.attempts, retryAt := r.retryAt) == r
      && s'.rows[id].attempts == r.attempts + 1
      && s'.rows[id].status == (if sub.active && ok then Delivered else if r.attempts + 1 >= r.max then Failed else Pending)
      && (s'.rows[id].status == Failed ==> (r.event, sub.consumer) in s'.dlq)
      && Posts(s', id) == Posts(s, id) + (if sub.active then 1 else 0)
  {
    var item, sub := ItemOf(s, id), s.subs[s.rows[id].sub];
    var a1, s1 := LeadsToAsked(s, id, ok);
    var a2, s2 := LeadsToFinished(s1, item, Answered(sub, sub.active && ok), s.workers);
    LeadsOn(s, a1, s1, a2, s2);
    acts, s' := a1 + a2, s2;
  }

  /** Row `id` came to the end its outcomes decide. */
  predicate Drained(s: State, s': State, id: nat, outcomes: seq<bool>)
    requires id in s.rows && s.rows[id].sub in s.subs
  {
    && id in s'.rows
    && var r, sub := s.rows[id], s.subs[s.rows[id].sub];
    && s'.rows[id].status == Fate(sub.active, outcomes)
    && (s'.rows[id].status == Failed ==> (r.event, sub.consumer) in s'.dlq)
    && (!sub.active ==> Posts(s', id) == Posts(s, id))
  }

  /** For every sequence of outcomes of the remaining attempts there is a crash-free
      schedule that ends the row: DELIVERED exactly when its subscription is active and
      some outcome is a success, otherwise FAILED with a dead letter. A row of an
      inactive subscription gets there without one post. */
  lemma {:induction false} RowsDrain(s: State, id: nat, outcomes: seq<bool>)
    requires 0 !in s.workers && id in s.rows && s.rows[id].status == Pending && s.rows[id].sub in s.subs
    requires |outcomes| == s.rows[id].max - s.rows[id].attempts && s.rows[id].attempts < s.rows[id].max
    ensures exists acts, s' :: Leads(s, acts, s') && Drained(s, s', id, outcomes)
    decreases |outcomes|
  {
    var acts, s' := LeadsThroughAttempt(s, id, outcomes[0]);
    if s'.rows[id].status == Pending {
      RowsDrain(s', id, outcomes[1..]);
      var more, s'' :| Leads(s', more, s'') && Drained(s', s'', id, outcomes[1..]);
      LeadsOn(s, acts, s', more, s'');
      assert Drained(s, s'', id, outcomes);
    } else {
      assert |outcomes| == 1 ==> outcomes[1..] == [];
      assert Drained(s, s', id, outcomes);
    }
  }
}
