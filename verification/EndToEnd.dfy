/** From the commit of a version to the end of its deliveries: the registry and the outbox
    side by side, where each row that a commit wrote to the outbox enters its tables. */
module EndToEnd {
  import opened Texts
  import R = RegistryModel
  import Announced = RegistryOutbox
  import Published = RegistryAnnouncements
  import O = OutboxModel
  import Safety = OutboxSafety
  import Fair = OutboxFairness

  /** The event that the call publishing a version of an endpoint carried. */
  type EventOf = (string, nat) -> nat

  /** How a step of the outbox may go with the registry as it is: rows enter in the order
      and with the content that commits wrote, and a worker sees all that is committed. */
  ghost predicate Joins(r: R.State, o: O.State, a: O.Action, eventOf: EventOf) {
    && !a.InlinePost?
    && (a.Enqueue? ==>
          && a.id == |o.rowIds| < |r.outbox|
          && a.sub == r.outbox[a.id].sub && a.event == eventOf(r.outbox[a.id].endpoint, r.outbox[a.id].version))
    && (a.Poll? ==> CaughtUp(r, o))
  }

  ghost predicate CaughtUp(r: R.State, o: O.State) { |o.rowIds| == |r.outbox| }

  /** Two runs step by step; either may stand still while the other moves (`StandingStill`). */
  ghost predicate IsJointRun(c: R.Config, rr: seq<R.State>, ra: seq<R.Action>, or: seq<O.State>, oa: seq<O.Action>, eventOf: EventOf) {
    && R.IsRun(c, rr, ra) && O.IsRun(or, oa) && |ra| == |oa|
    && forall j | 0 <= j < |oa| :: Joins(rr[j], or[j], oa[j], eventOf)
  }

  /** Standing still is a step of either. */
  lemma {:induction false} StandingStill(c: R.Config, r: R.State, o: O.State)
    requires R.DistinctSubs(r.subs)
    ensures R.Enabled(c, r, R.ChangeSubscriptions(r.subs)) && R.Do(c, r, R.ChangeSubscriptions(r.subs)) == r
    ensures O.Enabled(o, O.Tick(0)) && O.Do(o, O.Tick(0)) == o
  {
  }

  // ---- The two tables agree ----

  ghost predicate Stands(r: R.State, o: O.State, x: nat, eventOf: EventOf)
    requires x < |r.outbox|
  {
    x in o.rows ==> o.rows[x].sub == r.outbox[x].sub && o.rows[x].event == eventOf(r.outbox[x].endpoint, r.outbox[x].version)
  }

  /** The rows that have entered are the first of the committed ones, as they were written. */
  ghost predicate Linked(r: R.State, o: O.State, eventOf: EventOf) {
    && |o.rowIds| <= |r.outbox|
    && (forall x: nat :: x in o.rowIds <==> x < |o.rowIds|)
    && (forall x: nat | x < |o.rowIds| :: Stands(r, o, x, eventOf))
  }

  lemma {:induction false} OutboxGrows(c: R.Config, r: R.State, a: R.Action)
    requires R.Enabled(c, r, a)
    ensures r.outbox <= R.Do(c, r, a).outbox
  {
  }

  /** No step but an insertion gives a row its subscription and event. */
  lemma {:induction false} RowsKeepContent(o: O.State, a: O.Action, x: nat)
    requires O.Enabled(o, a) && !a.Enqueue? && !a.InlinePost?
    ensures O.Do(o, a).rowIds == o.rowIds
    ensures x in O.Do(o, a).rows ==> x in o.rows && SameContent(O.Do(o, a).rows[x], o.rows[x])
  {
    if a.Finish? || a.Mark? || a.EndInline? { UpdatesKeepContent(o, a, x); }
  }

  predicate SameContent(a: O.Row, b: O.Row) { a.sub == b.sub && a.event == b.event }

  lemma {:induction false} UpdatesKeepContent(o: O.State, a: O.Action, x: nat)
    requires O.Enabled(o, a) && (a.Finish? || a.Mark? || a.EndInline?)
    ensures O.Do(o, a).rowIds == o.rowIds
    ensures x in O.Do(o, a).rows ==> x in o.rows && SameContent(O.Do(o, a).rows[x], o.rows[x])
  {
  }

  lemma {:induction false} RegistryKeepsLinked(r: R.State, r': R.State, o: O.State, eventOf: EventOf)
    requires Linked(r, o, eventOf) && r.outbox <= r'.outbox
    ensures Linked(r', o, eventOf)
  {
    forall x: nat | x < |o.rowIds| ensures Stands(r', o, x, eventOf) { assert Stands(r, o, x, eventOf); }
  }

  lemma {:induction false} EntryKeepsLinked(r: R.State, o: O.State, a: O.Action, eventOf: EventOf)
    requires Linked(r, o, eventOf) && Joins(r, o, a, eventOf) && O.Enabled(o, a) && a.Enqueue?
    ensures Linked(r, O.Do(o, a), eventOf)
  {
    var o' := O.Do(o, a);
    assert |o'.rowIds| == |o.rowIds| + 1;
    forall x: nat | x < |o'.rowIds| ensures Stands(r, o', x, eventOf) {
      assert x < |o.rowIds| ==> Stands(r, o, x, eventOf);
    }
  }

  lemma {:induction false} OutboxKeepsLinked(r: R.State, o: O.State, a: O.Action, eventOf: EventOf)
    requires Linked(r, o, eventOf) && Joins(r, o, a, eventOf) && O.Enabled(o, a)
    ensures Linked(r, O.Do(o, a), eventOf)
  {
    if a.Enqueue? {
      EntryKeepsLinked(r, o, a, eventOf);
    } else {
      RowsKeepContent(o, a, 0);
      forall x: nat | x < |o.rowIds| ensures Stands(r, O.Do(o, a), x, eventOf) {
        assert Stands(r, o, x, eventOf);
        RowsKeepContent(o, a, x);
      }
    }
  }

  /** In every joint run, crashes and several workers included, the outbox holds the rows
      the registry's commits wrote, each under its own number. */
  lemma {:induction false} RunsKeepLinked(c: R.Config, rr: seq<R.State>, ra: seq<R.Action>, or: seq<O.State>, oa: seq<O.Action>,
                                          eventOf: EventOf, i: nat)
    requires IsJointRun(c, rr, ra, or, oa, eventOf) && i < |rr|
    ensures Linked(rr[i], or[i], eventOf)
    decreases i
  {
    if i > 0 {
      var j := i - 1;
      RunsKeepLinked(c, rr, ra, or, oa, eventOf, j);
      assert R.Enabled(c, rr[j], ra[j]) && O.Enabled(or[j], oa[j]) && Joins(rr[j], or[j], oa[j], eventOf);
      OutboxKeepsLinked(rr[j], or[j], oa[j], eventOf);
      OutboxGrows(c, rr[j], ra[j]);
      RegistryKeepsLinked(rr[j], rr[i], or[i], eventOf);
    }
  }

  // ---- One row for each announcement ----

  predicate IsRowFor(r: R.State, x: nat, e: string, v: nat, id: nat) {
    x < |r.outbox| && r.outbox[x] == R.OutboxRow(e, v, id)
  }

  predicate OnlyRowFor(r: R.State, x: nat, e: string, v: nat, id: nat) {
    IsRowFor(r, x, e, v, id) && forall y | 0 <= y < |r.outbox| :: IsRowFor(r, y, e, v, id) ==> y == x
  }

  lemma {:induction false} ToldOnce(r: R.State, e: string, v: nat, id: nat) returns (x: nat)
    requires Published.Told(r, e, v, id) == 1
    ensures OnlyRowFor(r, x, e, v, id)
  {
    var row := R.OutboxRow(e, v, id);
    assert row in multiset(r.outbox) && row in r.outbox;
    x :| x < |r.outbox| && r.outbox[x] == row;
    forall y | 0 <= y < |r.outbox| && IsRowFor(r, y, e, v, id) ensures y == x {
      if y < x { TwiceOccursTwice(r.outbox, y, x); }
      if x < y { TwiceOccursTwice(r.outbox, x, y); }
    }
  }

  lemma {:induction false} ToldNever(r: R.State, x: nat, e: string, v: nat, id: nat)
    requires Published.Told(r, e, v, id) == 0
    ensures !IsRowFor(r, x, e, v, id)
  {
    assert x < |r.outbox| ==> r.outbox[x] in multiset(r.outbox);
  }

  // ---- Every announcement ends ----

  /** The row tells subscription `sub` of `event`, and is DELIVERED with an accepted
      attempt in the log or FAILED with a dead letter. */
  ghost predicate EndedFor(o: O.State, x: nat, sub: nat, event: nat)
    requires x in o.rows
  {
    var row := o.rows[x];
    && row.sub == sub && row.event == event && sub in o.subs
    && match row.status
       case Delivered => O.Attempt(event, o.subs[sub].consumer, true) in o.log
       case Failed => (event, o.subs[sub].consumer) in o.dlq
       case _ => false
  }

  /** Row `x` has entered, and once as many polls as the bound have found it ready it is
      deleted or at its end. */
  ghost predicate EndsByPolls(or: seq<O.State>, oa: seq<O.Action>, k: nat, i: nat, x: nat, n: nat, sub: nat, event: nat)
    requires |or| == |oa| + 1 && k <= i < |or|
  {
    && x in or[i].rowIds
    && (x in or[i].rows && Fair.ReadyPolls(or, oa, k, i, x) >= Fair.PollBound(or, k, i, x, n) ==> EndedFor(or[i], x, sub, event))
  }

  lemma {:induction false} RowEnds(c: R.Config, rr: seq<R.State>, ra: seq<R.Action>, or: seq<O.State>, oa: seq<O.Action>,
                                   eventOf: EventOf, k: nat, i: nat, x: nat, e: string, v: nat, id: nat)
    requires IsJointRun(c, rr, ra, or, oa, eventOf) && Fair.IsFairRun(or, oa) && k <= i < |rr|
    requires CaughtUp(rr[i], or[i]) && !O.Busy(or[i], 0) && IsRowFor(rr[i], x, e, v, id)
    ensures EndsByPolls(or, oa, k, i, x, |rr[i].outbox|, id, eventOf(e, v))
  {
    RunsKeepLinked(c, rr, ra, or, oa, eventOf, i);
    assert Stands(rr[i], or[i], x, eventOf);
    if x in or[i].rows && Fair.ReadyPolls(or, oa, k, i, x) >= Fair.PollBound(or, k, i, x, |rr[i].outbox|) {
      Fair.ReadyPollsEndRows(or, oa, k, i, x, |rr[i].outbox|);
      Safety.StatusIsBacked(or, oa, i, x);
    }
  }

  /** What becomes of the announcement of a version to subscription `id`: if it wanted it at
      step `s`, it has one row and that ends; otherwise it has none. */
  ghost predicate AnnouncementEnds(rr: seq<R.State>, or: seq<O.State>, oa: seq<O.Action>, eventOf: EventOf,
                                   k: nat, s: nat, i: nat, e: string, v: nat, id: nat)
    requires |or| == |oa| + 1 == |rr| && k <= i < |rr| && s < |rr| && 1 <= v <= |R.Rows(rr[i], e)|
  {
    if Announced.Wanted(rr[s].subs, id, e, v, Published.ClassOf(rr[i], e, v))
    then exists x: nat :: OnlyRowFor(rr[i], x, e, v, id) && EndsByPolls(or, oa, k, i, x, |rr[i].outbox|, id, eventOf(e, v))
    else forall x: nat :: !IsRowFor(rr[i], x, e, v, id)
  }

  lemma {:induction false} OneEnds(c: R.Config, rr: seq<R.State>, ra: seq<R.Action>, or: seq<O.State>, oa: seq<O.Action>,
                                   eventOf: EventOf, k: nat, s: nat, i: nat, e: string, v: nat, id: nat)
    requires IsJointRun(c, rr, ra, or, oa, eventOf) && Fair.IsFairRun(or, oa) && k <= i < |rr| && s < |rr|
    requires CaughtUp(rr[i], or[i]) && !O.Busy(or[i], 0) && 1 < v <= |R.Rows(rr[i], e)|
    requires Published.Told(rr[i], e, v, id) == if Announced.Wanted(rr[s].subs, id, e, v, Published.ClassOf(rr[i], e, v)) then 1 else 0
    ensures AnnouncementEnds(rr, or, oa, eventOf, k, s, i, e, v, id)
  {
    if Announced.Wanted(rr[s].subs, id, e, v, Published.ClassOf(rr[i], e, v)) {
      var x := ToldOnce(rr[i], e, v, id);
      RowEnds(c, rr, ra, or, oa, eventOf, k, i, x, e, v, id);
    } else {
      forall x: nat ensures !IsRowFor(rr[i], x, e, v, id) { ToldNever(rr[i], x, e, v, id); }
    }
  }

  /** End to end, with one worker that polls oldest first and does not crash, whatever calls
      do: each committed version with a predecessor has, for exactly the subscriptions its
      publishing transaction selected, one outbox row, which the bounded number of polls
      finding it ready brings to an accepted attempt or a dead letter for the version's
      event and the subscription's consumer, unless it is deleted. */
  lemma {:induction false} AnnouncementsEnd(c: R.Config, rr: seq<R.State>, ra: seq<R.Action>, or: seq<O.State>, oa: seq<O.Action>,
                                            eventOf: EventOf, k: nat, i: nat, e: string, v: nat)
    requires IsJointRun(c, rr, ra, or, oa, eventOf) && Fair.IsFairRun(or, oa) && !c.inline && k <= i < |rr|
    requires CaughtUp(rr[i], or[i]) && !O.Busy(or[i], 0) && 1 < v <= |R.Rows(rr[i], e)|
    ensures exists t: nat, b: nat, s: nat, m: nat ::
      && Published.PublishedBy(rr, ra, e, v, t, b, s, m) && m < i
      && forall id: nat :: AnnouncementEnds(rr, or, oa, eventOf, k, s, i, e, v, id)
  {
    Published.OutboxIsTransactional(c, rr, ra, i, e, v);
    var t: nat, b: nat, s: nat, m: nat :|
      Published.PublishedBy(rr, ra, e, v, t, b, s, m) && m < i && Published.ToldAsSelected(rr, i, s, m, e, v);
    forall id: nat ensures AnnouncementEnds(rr, or, oa, eventOf, k, s, i, e, v, id) {
      OneEnds(c, rr, ra, or, oa, eventOf, k, s, i, e, v, id);
    }
  }
}
