/** With inline delivery off, what a transaction commits to the outbox is one row for
    every subscription its select found wanting to hear of its version, and no others. */
module RegistryOutbox {
  import opened Texts
  import opened Severities
  import opened Classifier
  import opened RegistryModel
  import opened RegistryChain

  /** The subscriptions told about version `v` of endpoint `e`, in order. */
  function ToldOf(outbox: seq<OutboxRow>, e: string, v: nat): seq<nat> {
    if outbox == [] then []
    else (if outbox[0].endpoint == e && outbox[0].version == v then [outbox[0].sub] else []) + ToldOf(outbox[1..], e, v)
  }

  function RowsTo(e: string, v: nat, subs: seq<Subscription>): seq<OutboxRow> {
    if subs == [] then [] else [OutboxRow(e, v, subs[0].id)] + RowsTo(e, v, subs[1..])
  }

  function Ids(subs: seq<Subscription>): seq<nat> {
    if subs == [] then [] else [subs[0].id] + Ids(subs[1..])
  }

  lemma {:induction false} ToldOfAppend(a: seq<OutboxRow>, b: seq<OutboxRow>, e: string, v: nat)
    ensures ToldOf(a + b, e, v) == ToldOf(a, e, v) + ToldOf(b, e, v)
  {
    if a == [] {
      assert a + b == b;
    } else {
      var one := if a[0].endpoint == e && a[0].version == v then [a[0].sub] else [];
      assert (a + b)[0] == a[0] && (a + b)[1..] == a[1..] + b;
      ToldOfAppend(a[1..], b, e, v);
      assert ToldOf(a + b, e, v) == one + (ToldOf(a[1..], e, v) + ToldOf(b, e, v));
    }
  }

  lemma {:induction false} ToldOfRowsTo(e: string, v: nat, subs: seq<Subscription>, x: string, w: nat)
    ensures ToldOf(RowsTo(e, v, subs), x, w) == if x == e && w == v then Ids(subs) else []
  {
    if subs != [] {
      ToldOfRowsTo(e, v, subs[1..], x, w);
      assert RowsTo(e, v, subs)[1..] == RowsTo(e, v, subs[1..]);
    }
  }

  lemma {:induction false} RowsToGrows(e: string, v: nat, subs: seq<Subscription>, n: nat)
    requires n < |subs|
    ensures RowsTo(e, v, subs[..n + 1]) == RowsTo(e, v, subs[..n]) + [OutboxRow(e, v, subs[n].id)]
  {
    if n > 0 {
      RowsToGrows(e, v, subs[1..], n - 1);
      assert subs[..n + 1][1..] == subs[1..][..n] && subs[..n][1..] == subs[1..][..n - 1];
    } else {
      assert subs[..1] == [subs[0]] && subs[..0] == [];
    }
  }

  // ---- The invariant ----

  ghost predicate TxAnnounces(tx: Tx) {
    if tx.phase.Enqueuing? then
      && !tx.phase.published && tx.phase.done <= |Announced(tx)|
      && tx.unsent == RowsTo(tx.endpoint, tx.phase.row.version, Announced(tx)[..tx.phase.done])
    else tx.unsent == []
  }

  /** Version `v`, if it is committed and has a predecessor, was announced to exactly
      the subscriptions its transaction's select found; nothing else was announced. */
  ghost predicate VersionAnnounced(s: State, e: string, v: nat) {
    if 1 < v <= |Rows(s, e)| then
      && (e, v) in s.seenAt
      && ToldOf(s.outbox, e, v) == Ids(Affected(s.seenAt[(e, v)], e, v, Rows(s, e)[v - 1].cls))
    else ToldOf(s.outbox, e, v) == []
  }

  ghost predicate OutboxInv(s: State) {
    && (forall t | t in s.txs :: TxAnnounces(s.txs[t]))
    && (forall e, v :: VersionAnnounced(s, e, v))
  }

  lemma {:induction false} LocalKeepsOutbox(s: State, s': State, t: nat)
    requires OutboxInv(s) && LocalTo(s, s', t) && s'.subs == s.subs
    requires s'.outbox == s.outbox && s'.seenAt == s.seenAt
    requires t in s'.txs ==> TxAnnounces(s'.txs[t])
    ensures OutboxInv(s')
  {
    forall e, v ensures VersionAnnounced(s', e, v) {
      assert VersionAnnounced(s, e, v) && Rows(s', e) == Rows(s, e);
    }
  }

  lemma {:induction false} EnqueueKeepsOutbox(s: State, t: nat)
    requires OutboxInv(s) && t in s.txs && s.txs[t].phase.Enqueuing? && s.txs[t].phase.done < |Announced(s.txs[t])|
    ensures OutboxInv(DoEnqueue(s, t))
  {
    var tx := s.txs[t];
    assert TxAnnounces(tx);
    RowsToGrows(tx.endpoint, tx.phase.row.version, Announced(tx), tx.phase.done);
    LocalKeepsOutbox(s, DoEnqueue(s, t), t);
  }

  lemma {:induction false} QuietStepKeepsOutbox(c: Config, s: State, a: Action)
    requires OutboxInv(s) && Enabled(c, s, a) && (Plain(a) || a.Insert? || a.Reclassify?)
    ensures OutboxInv(Do(c, s, a))
  {
    assert TxAnnounces(s.txs[a.t]);
    if a.Select? { SelectAnnounces(s.txs[a.t], s.subs); }
    QuietStepIsLocal(c, s, a);
    LocalKeepsOutbox(s, Do(c, s, a), a.t);
  }

  lemma {:induction false} SelectAnnounces(tx: Tx, subs: seq<Subscription>)
    requires tx.phase.Classified? && tx.unsent == []
    ensures TxAnnounces(tx.(phase := Enqueuing(tx.phase.row, tx.phase.cleared, subs, 0, false)))
  {
  }

  lemma {:induction false} QuietStepIsLocal(c: Config, s: State, a: Action)
    requires Enabled(c, s, a) && (Plain(a) || a.Insert? || a.Reclassify?)
    ensures LocalTo(s, Do(c, s, a), a.t)
    ensures var s' := Do(c, s, a);
      && s'.subs == s.subs && s'.outbox == s.outbox && s'.seenAt == s.seenAt
      && (a.t in s'.txs ==> s'.txs[a.t].unsent == s.txs[a.t].unsent && (s'.txs[a.t].phase.Enqueuing? ==> a.Select?))
  {
  }

  // ---- Commits ----

  /** Whatever a transaction with a pending row commits, it announces in full. */
  lemma {:induction false} CommitAnnounces(c: Config, s: State, s': State, e: string, row: Row, seen: seq<Subscription>,
                                           sent: seq<Subscription>)
    requires OutboxInv(s) && PendingOk(c, Rows(s, e), s.nextId, row, |Rows(s, e)|)
    requires row.version > 1 ==> sent == Affected(seen, e, row.version, row.cls)
    requires row.version == 1 ==> sent == []
    requires s'.tables == s.tables[e := Publish(Rows(s, e), |Rows(s, e)|, row)]
    requires s'.seenAt == s.seenAt[(e, row.version) := seen]
    requires s'.outbox == s.outbox + RowsTo(e, row.version, sent)
    ensures forall x, v :: VersionAnnounced(s', x, v)
  {
    var before := Rows(s, e);
    var after := Publish(before, |before|, row);
    forall x: string, v: nat ensures VersionAnnounced(s', x, v) {
      assert VersionAnnounced(s, x, v);
      ToldOfAppend(s.outbox, RowsTo(e, row.version, sent), x, v);
      ToldOfRowsTo(e, row.version, sent, x, v);
      if x == e {
        assert Rows(s', x) == after;
        assert v <= |before| && v > 0 ==> after[v - 1].cls == before[v - 1].cls;
      } else {
        assert Rows(s', x) == Rows(s, x);
      }
    }
  }

  lemma {:induction false} CommitFrame(c: Config, s: State, t: nat)
    requires t in s.txs && MayCommit(c, s.txs[t]) && !c.inline && !(s.txs[t].phase.Enqueuing? && s.txs[t].phase.published)
    ensures var tx, s' := s.txs[t], DoCommit(c, s, t);
      && s'.txs == s.txs - {t} && s'.subs == s.subs
      && (Pending(tx) ==> s'.tables == s.tables[tx.endpoint := Publish(Rows(s, tx.endpoint), tx.phase.cleared, PendingRow(tx))])
      && (!Pending(tx) ==> s'.tables == s.tables && s'.seenAt == s.seenAt && s'.outbox == s.outbox)
  {
  }

  lemma {:induction false} CommitWrites(c: Config, s: State, t: nat)
    requires t in s.txs && MayCommit(c, s.txs[t]) && !c.inline && Pending(s.txs[t])
    ensures var tx, s' := s.txs[t], DoCommit(c, s, t);
      if tx.phase.Enqueuing? then
        && tx.phase.done == |Announced(tx)| && s'.outbox == s.outbox + tx.unsent
        && s'.seenAt == s.seenAt[(tx.endpoint, tx.phase.row.version) := tx.phase.seen]
      else
        && tx.phase.Inserted? && tx.phase.row.prev.None? && s'.outbox == s.outbox
        && s'.seenAt == s.seenAt[(tx.endpoint, tx.phase.row.version) := []]
  {
  }

  lemma {:induction false} CommitKeepsOutbox(c: Config, s: State, t: nat)
    requires Inv(c, s) && OutboxInv(s) && !c.inline && t in s.txs && MayCommit(c, s.txs[t])
    ensures OutboxInv(DoCommit(c, s, t))
  {
    var tx, s' := s.txs[t], DoCommit(c, s, t);
    assert TxOk(c, Rows(s, tx.endpoint), s.nextId, tx) && TxAnnounces(tx);
    CommitFrame(c, s, t);
    if Pending(tx) {
      CommitWrites(c, s, t);
      var row := PendingRow(tx);
      var sent := if tx.phase.Enqueuing? then Announced(tx) else [];
      assert tx.phase.Enqueuing? ==> Announced(tx)[..tx.phase.done] == Announced(tx);
      assert RowsTo(tx.endpoint, row.version, []) == [] && s.outbox + [] == s.outbox;
      CommitAnnounces(c, s, s', tx.endpoint, row, if tx.phase.Enqueuing? then tx.phase.seen else [], sent);
    } else {
      LocalKeepsOutbox(s, s', t);
    }
  }

  lemma {:induction false} BeginKeepsOutbox(s: State, t: nat, tx: Tx)
    requires OutboxInv(s) && tx.phase.Looking? && tx.unsent == []
    ensures OutboxInv(s.(txs := s.txs[t := tx]))
  {
    LocalKeepsOutbox(s, s.(txs := s.txs[t := tx]), t);
  }

  lemma {:induction false} StepKeepsOutbox(c: Config, s: State, a: Action)
    requires Inv(c, s) && OutboxInv(s) && !c.inline && Enabled(c, s, a)
    ensures OutboxInv(Do(c, s, a))
  {
    match a
    case Begin(t, process, e, schema) => BeginKeepsOutbox(s, t, Tx(process, e, schema, Looking, false, []));
    case Enqueue(t) => EnqueueKeepsOutbox(s, t);
    case Commit(t) => CommitKeepsOutbox(c, s, t);
    case Abort(t) => LocalKeepsOutbox(s, Drop(s, t), t);
    case ChangeSubscriptions(subs) => ChangeKeepsOutbox(s, subs);
    case _ => QuietStepKeepsOutbox(c, s, a);
  }

  lemma {:induction false} ChangeKeepsOutbox(s: State, subs: seq<Subscription>)
    requires OutboxInv(s)
    ensures OutboxInv(s.(subs := subs))
  {
    var s' := s.(subs := subs);
    forall e, v ensures VersionAnnounced(s', e, v) { assert VersionAnnounced(s, e, v) && Rows(s', e) == Rows(s, e); }
  }

  lemma {:induction false} RunsKeepOutbox(c: Config, run: seq<State>, acts: seq<Action>, i: nat)
    requires IsRun(c, run, acts) && !c.inline && i < |run|
    ensures OutboxInv(run[i])
    decreases i
  {
    if i > 0 {
      RunsKeepOutbox(c, run, acts, i - 1);
      RunsKeepInv(c, run, acts, i - 1);
      assert Enabled(c, run[i - 1], acts[i - 1]);
      StepKeepsOutbox(c, run[i - 1], acts[i - 1]);
    }
  }

  // ---- What the invariant says ----

  lemma {:induction false} RunsKeepSubsDistinct(c: Config, run: seq<State>, acts: seq<Action>, i: nat)
    requires IsRun(c, run, acts) && i < |run|
    ensures DistinctSubs(run[i].subs)
    decreases i
  {
    if i > 0 {
      RunsKeepSubsDistinct(c, run, acts, i - 1);
      assert Enabled(c, run[i - 1], acts[i - 1]);
      SubsStep(c, run[i - 1], acts[i - 1]);
    }
  }

  lemma {:induction false} SubsStep(c: Config, s: State, a: Action)
    requires Enabled(c, s, a)
    ensures Do(c, s, a).subs == if a.ChangeSubscriptions? then a.subs else s.subs
  {
  }

  /** Some subscription with this id wants to hear of the version. */
  predicate Wanted(subs: seq<Subscription>, id: nat, e: string, v: nat, cls: Severity) {
    exists i | 0 <= i < |subs| :: subs[i].id == id && Matching(subs[i], e, v, cls)
  }

  /** A higher class reaches every subscription a lower one does; BREAKING reaches every
      active subscription whose version filter allows the version, and a threshold that
      names no class lets every class through. */
  lemma {:induction false} HigherClassesReachMore(sub: Subscription, e: string, v: nat, low: Severity, high: Severity)
    requires Rank(low) <= Rank(high)
    ensures Matching(sub, e, v, low) ==> Matching(sub, e, v, high)
    ensures Matching(sub, e, v, Breaking) <==> sub.endpoint == e && sub.active && (sub.fromVersion.None? || sub.fromVersion.value <= v)
    ensures (forall c :: Name(c) != sub.threshold) ==> (Matching(sub, e, v, low) <==> Matching(sub, e, v, Breaking))
    ensures forall c | Name(c) == sub.threshold :: Matching(sub, e, v, low) ==> Rank(low) >= Rank(c)
  {
    forall c | Name(c) == sub.threshold ensures RankOfName(sub.threshold) == Rank(c) { RanksAreNames(c, c); }
    if forall c :: Name(c) != sub.threshold {
      assert Name(BackwardCompatible) != sub.threshold && Name(ForwardCompatible) != sub.threshold;
      assert Name(Risky) != sub.threshold && Name(Breaking) != sub.threshold;
    }
  }

  /** Which classes reach a threshold: none but SAFE is below BACKWARD_COMPATIBLE, and the
      others follow in the order FORWARD_COMPATIBLE, RISKY, BREAKING. */
  lemma {:induction false} ThresholdsMean(sub: Subscription, e: string, v: nat, cls: Severity)
    requires sub.endpoint == e && sub.active && (sub.fromVersion.Some? ==> sub.fromVersion.value <= v)
    ensures sub.threshold == "BREAKING" ==> (Matching(sub, e, v, cls) <==> cls == Breaking)
    ensures sub.threshold == "RISKY" ==> (Matching(sub, e, v, cls) <==> cls in {Risky, Breaking})
    ensures sub.threshold == "FORWARD_COMPATIBLE" ==> (Matching(sub, e, v, cls) <==> cls in {ForwardCompatible, Risky, Breaking})
    ensures sub.threshold == "BACKWARD_COMPATIBLE" ==> (Matching(sub, e, v, cls) <==> cls != Safe)
    ensures sub.threshold == "SAFE" ==> Matching(sub, e, v, cls)
  {
    assert |"SAFE"| == 4 && |"RISKY"| == 5 && |"BREAKING"| == 8 && |"FORWARD_COMPATIBLE"| == 18 && |"BACKWARD_COMPATIBLE"| == 19;
  }

  lemma {:induction false} ToldCount(outbox: seq<OutboxRow>, e: string, v: nat, id: nat)
    ensures multiset(outbox)[OutboxRow(e, v, id)] == multiset(ToldOf(outbox, e, v))[id]
  {
    if outbox != [] {
      ToldCount(outbox[1..], e, v, id);
      var row, rest := outbox[0], ToldOf(outbox[1..], e, v);
      assert outbox == [row] + outbox[1..];
      assert multiset(outbox) == multiset{row} + multiset(outbox[1..]);
      assert multiset([row.sub] + rest) == multiset{row.sub} + multiset(rest) && [] + rest == rest;
    }
  }

  lemma {:induction false} WantedTail(subs: seq<Subscription>, id: nat, e: string, v: nat, cls: Severity)
    requires subs != []
    ensures Wanted(subs, id, e, v, cls) <==>
      (subs[0].id == id && Matching(subs[0], e, v, cls)) || Wanted(subs[1..], id, e, v, cls)
  {
    if Wanted(subs[1..], id, e, v, cls) {
      var i :| 0 <= i < |subs[1..]| && subs[1..][i].id == id && Matching(subs[1..][i], e, v, cls);
      assert subs[i + 1].id == id;
    }
    if Wanted(subs, id, e, v, cls) {
      var i :| 0 <= i < |subs| && subs[i].id == id && Matching(subs[i], e, v, cls);
      assert i > 0 ==> subs[1..][i - 1] == subs[i];
    }
  }

  lemma {:induction false} IdsAppend(a: seq<Subscription>, b: seq<Subscription>)
    ensures Ids(a + b) == Ids(a) + Ids(b)
  {
    if a == [] {
      assert a + b == b;
    } else {
      assert (a + b)[1..] == a[1..] + b;
      IdsAppend(a[1..], b);
    }
  }

  lemma {:induction false} HeadWantedOnce(subs: seq<Subscription>, e: string, v: nat, cls: Severity)
    requires DistinctSubs(subs) && subs != []
    ensures !Wanted(subs[1..], subs[0].id, e, v, cls)
  {
    assert forall i | 0 <= i < |subs[1..]| :: subs[1..][i] == subs[i + 1];
  }

  lemma {:induction false} AffectedCount(subs: seq<Subscription>, id: nat, e: string, v: nat, cls: Severity)
    requires DistinctSubs(subs)
    ensures multiset(Ids(Affected(subs, e, v, cls)))[id] == if Wanted(subs, id, e, v, cls) then 1 else 0
  {
    if subs != [] {
      AffectedCount(subs[1..], id, e, v, cls);
      WantedTail(subs, id, e, v, cls);
      var one := if Matching(subs[0], e, v, cls) then [subs[0]] else [];
      IdsAppend(one, Affected(subs[1..], e, v, cls));
      assert Ids([subs[0]]) == [subs[0].id];
      HeadWantedOnce(subs, e, v, cls);
    }
  }

  /** What the select of a committed version's transaction read. */
  function SeenFor(s: State, e: string, v: nat): seq<Subscription> {
    if (e, v) in s.seenAt then s.seenAt[(e, v)] else []
  }

  lemma {:induction false} CountsOf(s: State, e: string, v: nat, id: nat)
    requires OutboxInv(s)
    requires 1 < v <= |Rows(s, e)| ==> DistinctSubs(SeenFor(s, e, v))
    ensures multiset(s.outbox)[OutboxRow(e, v, id)] ==
      if 1 < v <= |Rows(s, e)| && Wanted(SeenFor(s, e, v), id, e, v, Rows(s, e)[v - 1].cls) then 1 else 0
  {
    assert VersionAnnounced(s, e, v);
    ToldCount(s.outbox, e, v, id);
    if 1 < v <= |Rows(s, e)| { AffectedCount(SeenFor(s, e, v), id, e, v, Rows(s, e)[v - 1].cls); }
  }
}
