/**
 * Reachable states, under every configuration, that a simpler account of the pipeline would rule out: a message
 * acknowledged while its event is pending, a pending event that nothing but an old row stands for, and an orphan
 * dead letter that a replay accepts.
 */
module Witnesses {
  import opened Types
  import opened Database
  import opened Broker
  import opened Pipeline
  import opened Accounting
  import opened Runs
  import opened Progress
  import opened Quiescence
  import opened Worker
  import opened Refinement
  import opened Decisions

  lemma ReachableWorks(cfg: Config, base: map<CustomerId, Customer>, s: Sys, t: Sys)
    requires Reachable(cfg, base, s) && WorksTo(cfg, s, t)
    ensures Reachable(cfg, base, t)
  {
    hide Reachable, Legal, Run;
    var steps :| Legal(cfg, s, steps) && Run(cfg, s, steps) == t && forall i | 0 <= i < |steps| :: FaultFree(steps[i]);
    ReachableRun(cfg, base, s, steps);
  }

  lemma StartReachable(cfg: Config, base: map<CustomerId, Customer>, now: int)
    ensures Reachable(cfg, base, Start(base, now)) && Inv(cfg, base, Start(base, now))
  {
    InvStart(cfg, base, now);
    hide Inv;
    assert Legal(cfg, Start(base, now), []) && Run(cfg, Start(base, now), []) == Start(base, now);
  }

  // ---------- Failing the only message there is ----------

  lemma HiccupHolding(cfg: Config, s: Sys, t: Sys, w: nat, m: nat, a: nat)
    requires Holding(s, t, w, m, a) && a <= cfg.maxRetries && Valid(t.stream)
    ensures Enabled(cfg, t, Hiccup(w)) && Holding(s, Next(cfg, t, Hiccup(w)), w, m, a + 1)
  {
    hide NextHistory;
  }

  lemma {:induction false} HiccupsReach(cfg: Config, base: map<CustomerId, Customer>, s: Sys, t: Sys, w: nat, m: nat,
                                        a: nat) returns (u: Sys)
    requires Reachable(cfg, base, t) && Holding(s, t, w, m, a) && a <= cfg.maxRetries + 1
    ensures Reachable(cfg, base, u) && Holding(s, u, w, m, cfg.maxRetries + 1)
    decreases cfg.maxRetries + 1 - a
  {
    hide Reachable, Holding, Next, Enabled, Inv;
    u := t;
    if a <= cfg.maxRetries {
      ReachableInv(cfg, base, t);
      StreamFacts(cfg, base, t);
      HiccupHolding(cfg, s, t, w, m, a);
      ReachableStep(cfg, base, t, Hiccup(w));
      u := HiccupsReach(cfg, base, s, Next(cfg, t, Hiccup(w)), w, m, a + 1);
    }
  }

  /** Worker `w` has given the message up, and is about to acknowledge it. */
  ghost predicate GivenUp(cfg: Config, s: Sys, t: Sys, w: nat, m: nat) {
    && m in s.stream.entries
    && t.db == Fail(s.db, Decode(m, s.stream.entries[m].raw), cfg.maxRetries)
    && t.now == s.now && t.recons == s.recons && t.stream.entries == s.stream.entries
    && w in t.tasks && t.tasks[w].msgs == [Msg(m, Decode(m, s.stream.entries[m].raw))] && t.tasks[w].handled
    && t.tasks - {w} == s.tasks
  }

  lemma DeadLetterGivesUp(cfg: Config, s: Sys, t: Sys, w: nat, m: nat)
    requires Holding(s, t, w, m, cfg.maxRetries + 1) && Valid(t.stream)
    ensures Enabled(cfg, t, DeadLetter(w)) && GivenUp(cfg, s, Next(cfg, t, DeadLetter(w)), w, m)
  {
    hide NextHistory, Fail;
  }

  /** A worker reads the only message, undelivered so far, and gives it up after its last attempt. */
  lemma FailOnly(cfg: Config, base: map<CustomerId, Customer>, s: Sys, w: nat, m: nat) returns (t: Sys)
    requires Reachable(cfg, base, s) && w !in s.tasks && s.stream.pel == map[] && s.stream.entries.Keys == {m}
    ensures Reachable(cfg, base, t) && GivenUp(cfg, s, t, w, m)
  {
    hide Reachable, Holding, Next, Inv, GivenUp;
    ReachableInv(cfg, base, s);
    StreamFacts(cfg, base, s);
    assert m in s.stream.entries;
    ReachableStep(cfg, base, s, Read(w, 1));
    var read := ReadShape(cfg, s, w);
    ReadIsHeld(s, Next(cfg, s, Read(w, 1)), w, read, 0);
    var u := HiccupsReach(cfg, base, s, Next(cfg, s, Read(w, 1)), w, read, 0);
    ReachableInv(cfg, base, u);
    StreamFacts(cfg, base, u);
    DeadLetterGivesUp(cfg, s, u, w, m);
    ReachableStep(cfg, base, u, DeadLetter(w));
    t := Next(cfg, u, DeadLetter(w));
  }

  lemma ReadIsHeld(s: Sys, t: Sys, w: nat, m: nat, a: nat)
    requires Holding(s, t, w, m, a)
    ensures m in s.stream.entries.Keys
  {}

  lemma DropGivenUp(cfg: Config, s: Sys, t: Sys, w: nat, m: nat)
    requires GivenUp(cfg, s, t, w, m) && s.stream.entries.Keys == {m} && Valid(t.stream)
    ensures Enabled(cfg, t, Acknowledge(w))
    ensures var u := Next(cfg, t, Acknowledge(w));
            && u.db == t.db && u.now == s.now && u.recons == s.recons && u.stream.entries == map[]
            && u.tasks == s.tasks
  {
    hide NextHistory;
    assert t.tasks[w].msgs[1..] == [];
  }

  // ---------- Publishing the only row there is ----------

  lemma OnlyClaimable(db: Db, now: int, limit: nat, o: nat)
    requires WellFormed(db) && db.outbox.Keys == {o} && db.outbox[o].publishedAt == None
    requires IsPending(db, db.outbox[o].eventId) && 0 < limit
    ensures ClaimUnpublished(db, now, {}, limit) == [o]
  {
    ClaimableBelowExact(db, now, {}, db.nextOutbox);
    var all := AllClaimable(db, now, {});
    assert o in db.outbox.Keys && Claimable(db, now, {}, o);
    forall p: nat ensures p in all <==> p in [o] {
      assert p in all ==> p in db.outbox.Keys;
    }
    AscendingUnique(all, [o]);
  }

  lemma PublishOnly(cfg: Config, base: map<CustomerId, Customer>, s: Sys, o: nat) returns (t: Sys)
    requires Reachable(cfg, base, s) && s.recons == map[] && s.stream.entries == map[] && 0 < cfg.limit
    requires s.db.outbox.Keys == {o} && o in s.db.outbox && s.db.outbox[o].messageId == None
    requires s.db.outbox[o].publishedAt == None && IsPending(s.db, s.db.outbox[o].eventId)
    ensures Reachable(cfg, base, t) && t.db == s.db.(outbox := t.db.outbox) && t.now == s.now
    ensures t.recons == map[] && t.tasks == s.tasks
    ensures t.stream == Enqueue(s.stream, OwnEntry(s.db.outbox[o].eventId, o))
  {
    hide Reachable, Inv, Run, Legal, ReconcileSteps, ClaimUnpublished;
    ReachableInv(cfg, base, s);
    StreamFacts(cfg, base, s);
    OnlyClaimable(s.db, s.now, cfg.limit, o);
    ReconcileIsRun(cfg, base, s);
    ReachableRun(cfg, base, s, ReconcileSteps(cfg, s.db, s.now));
    t := Run(cfg, s, ReconcileSteps(cfg, s.db, s.now));
    PublishOne(s.db.outbox, s.stream, s.now, o);
  }

  lemma PublishOne(outbox: map<nat, OutboxRow>, b: Stream, now: int, o: nat)
    requires o in outbox && outbox[o].messageId == None
    ensures PublishRows(outbox, b, now, [o]).stream == Enqueue(b, OwnEntry(outbox[o].eventId, o))
  {
    PublishStep(outbox, b, now, [o], 0);
    PublishNothing(outbox, b, now);
    assert [o][..0] == [] && [o][..1] == [o];
  }

  // ---------- The three states ----------

  lemma FirstIngest(cfg: Config, base: map<CustomerId, Customer>, s: Sys, body: EventIn)
    requires Valid(s.stream) && s.db.events == map[] && s.db.outbox == map[]
    ensures var t := Next(cfg, s, Ingest(body));
            && t.now == s.now && t.stream == s.stream && t.recons == s.recons && t.tasks == s.tasks
            && t.db.events.Keys == {body.eventId} && IsPending(t.db, body.eventId) && t.db.dlq == s.db.dlq
            && t.db.nextDlq == s.db.nextDlq
            && t.db.outbox == map[s.db.nextOutbox := OutboxRow(body.eventId, s.now, None, None)]
  {
    hide NextHistory;
  }

  /** Replay between a worker's last failure and its acknowledgement: the message goes, its event pending. */
  lemma AcknowledgedAlthoughPending(cfg: Config, base: map<CustomerId, Customer>, now: int, body: EventIn, w: nat)
    returns (t: Sys)
    requires 0 < cfg.limit
    ensures Reachable(cfg, base, t) && Enabled(cfg, t, Acknowledge(w))
    ensures FiledUnder(t.tasks[w].msgs[0].payload) == body.eventId && IsPending(t.db, body.eventId)
  {
    hide Reachable, Next, Inv, GivenUp;
    var a := Start(base, now);
    StartReachable(cfg, base, now);
    ReachableStep(cfg, base, a, Ingest(body));
    FirstIngest(cfg, base, a, body);
    var b := Next(cfg, a, Ingest(body));
    var c := PublishOnly(cfg, base, b, 0);
    var d := FailOnly(cfg, base, c, w, 0);
    ReachableStep(cfg, base, d, Replayed(0));
    GivenUpThenReplayed(cfg, c, d, w, 0, body.eventId);
    t := Next(cfg, d, Replayed(0));
  }

  lemma GivenUpThenReplayed(cfg: Config, s: Sys, t: Sys, w: nat, m: nat, e: EventId)
    requires GivenUp(cfg, s, t, w, m) && Valid(t.stream) && s.db.dlq == map[] && IsPending(s.db, e)
    requires s.db.nextDlq == 0 && s.stream.entries[m].raw == Body(Payload(Some(e), true))
    ensures var u := Next(cfg, t, Replayed(0));
            && Enabled(cfg, u, Acknowledge(w)) && IsPending(u.db, e)
            && FiledUnder(u.tasks[w].msgs[0].payload) == e
  {
    hide NextHistory;
  }

  /** From any reachable state, publishing all and then losing Redis leaves no message, and every row published. */
  lemma PendingWithoutRowOrMessage(cfg: Config, base: map<CustomerId, Customer>, s: Sys, e: EventId) returns (t: Sys)
    requires Reachable(cfg, base, s) && IsPending(s.db, e) && 0 < cfg.limit
    ensures Reachable(cfg, base, t) && IsPending(t.db, e) && t.stream.entries == map[]
    ensures forall o | o in t.db.outbox && t.db.outbox[o].eventId == e :: t.db.outbox[o].publishedAt.Some?
  {
    hide Reachable, WorksTo, Inv, Next;
    ReachableInv(cfg, base, s);
    var a := FinishAll(cfg, base, s);
    var b := PublishAllDue(cfg, base, a);
    ReachableWorks(cfg, base, s, a);
    ReachableWorks(cfg, base, a, b);
    StreamFacts(cfg, base, b);
    DueExact(b);
    hide Due;
    ReachableStep(cfg, base, b, LoseRedis);
    LossShape(cfg, b);
    t := Next(cfg, b, LoseRedis);
    forall o | o in t.db.outbox && t.db.outbox[o].eventId == e
      ensures t.db.outbox[o].publishedAt.Some?
    {
      assert o !in Due(b);
    }
  }

  lemma LossShape(cfg: Config, s: Sys)
    requires Valid(s.stream)
    ensures var t := Next(cfg, s, LoseRedis); t.db == s.db && t.stream.entries == map[]
  {
    hide NextHistory;
  }

  lemma ForeignShape(cfg: Config, s: Sys, raw: Raw)
    requires Valid(s.stream)
    ensures var t := Next(cfg, s, Foreign(raw));
            && t.db == s.db && t.now == s.now && t.recons == s.recons && t.tasks == s.tasks
            && t.stream == Enqueue(s.stream, Entry(raw, None))
  {
    hide NextHistory;
  }

  /**
   * A message without an event is dead-lettered; the event is ingested later and fails; the first row can be
   * replayed.
   */
  lemma OrphanCanBeReplayed(cfg: Config, base: map<CustomerId, Customer>, now: int, body: EventIn)
    returns (t: Sys, d: nat)
    requires 0 < cfg.limit
    ensures Reachable(cfg, base, t) && TakesOrphan(t, Replayed(d), body.eventId)
  {
    hide Reachable, Next, Inv, GivenUp;
    var e, start := body.eventId, Start(base, now);
    var raw := Body(Payload(Some(e), true));
    StartReachable(cfg, base, now);
    ReachableStep(cfg, base, start, Foreign(raw));
    ForeignShape(cfg, start, raw);
    var a := Next(cfg, start, Foreign(raw));
    var b := FailOnly(cfg, base, a, 0, 0);
    ReachableInv(cfg, base, b);
    StreamFacts(cfg, base, b);
    DropGivenUp(cfg, a, b, 0, 0);
    ReachableStep(cfg, base, b, Acknowledge(0));
    var c := Next(cfg, b, Acknowledge(0));
    GivenUpWithoutEvent(cfg, a, b, 0, 0, e);
    ReachableStep(cfg, base, c, Ingest(body));
    FirstIngest(cfg, base, c, body);
    t := FailAfterIngest(cfg, base, Next(cfg, c, Ingest(body)), e);
    d := OneOfTwo(cfg, base, t, e);
  }

  lemma GivenUpWithoutEvent(cfg: Config, s: Sys, t: Sys, w: nat, m: nat, e: EventId)
    requires GivenUp(cfg, s, t, w, m) && s.db.events == map[] && s.db.dlq == map[] && s.db.nextDlq == 0
    requires s.stream.entries[m].raw == Body(Payload(Some(e), true))
    ensures t.db.events == map[] && t.db.outbox == s.db.outbox && t.db.nextDlq == 1
    ensures t.db.dlq == map[0 := DlqRow(e, cfg.maxRetries, None)]
  {}

  /** The event, with its only row unpublished, is published, read and given up. */
  lemma FailAfterIngest(cfg: Config, base: map<CustomerId, Customer>, s: Sys, e: EventId) returns (t: Sys)
    requires Reachable(cfg, base, s) && s.recons == map[] && s.tasks == map[] && s.stream.entries == map[]
    requires IsPending(s.db, e) && 0 < cfg.limit && s.db.nextDlq == 1
    requires s.db.dlq == map[0 := DlqRow(e, cfg.maxRetries, None)]
    requires exists o: nat, at: int :: s.db.outbox == map[o := OutboxRow(e, at, None, None)]
    ensures Reachable(cfg, base, t) && e in t.db.events && t.db.events[e].status == Failed
    ensures t.db.dlq == map[0 := DlqRow(e, cfg.maxRetries, None), 1 := DlqRow(e, cfg.maxRetries, None)]
  {
    hide Reachable, Inv;
    var o: nat, at: int :| s.db.outbox == map[o := OutboxRow(e, at, None, None)];
    var a := PublishOnly(cfg, base, s, o);
    ReachableInv(cfg, base, s);
    StreamFacts(cfg, base, s);
    ReachableInv(cfg, base, a);
    StreamFacts(cfg, base, a);
    assert a.stream.pel == map[];
    t := FailOnly(cfg, base, a, 1, s.stream.nextId);
  }

  /** Of two unreplayed dead letters of a failed event one is an orphan. */
  lemma OneOfTwo(cfg: Config, base: map<CustomerId, Customer>, s: Sys, e: EventId) returns (d: nat)
    requires Reachable(cfg, base, s) && e in s.db.events && s.db.events[e].status == Failed
    requires s.db.dlq == map[0 := DlqRow(e, cfg.maxRetries, None), 1 := DlqRow(e, cfg.maxRetries, None)]
    ensures TakesOrphan(s, Replayed(d), e)
  {
    FiledOnce(cfg, base, s, e);
    hide Reachable;
    assert 0 in s.db.dlq.Keys && 1 in s.db.dlq.Keys;
    assert ReplayedFor(s.db.dlq, e) == {};
    BothFiled(s.db.dlq, s.hist.filed, e);
    hide FiledFor, ReplayedFor;
    d := if 0 in s.hist.filed then 1 else 0;
  }

  lemma FiledOnce(cfg: Config, base: map<CustomerId, Customer>, s: Sys, e: EventId)
    requires Reachable(cfg, base, s) && e in s.db.events && s.db.events[e].status == Failed
    ensures |FiledFor(s.db.dlq, s.hist.filed, e)| == |ReplayedFor(s.db.dlq, e)| + 1
  {
    hide Reachable, FiledFor, ReplayedFor;
    DeadLettersBalance(cfg, base, s, e);
  }

  lemma BothFiled(dlq: map<nat, DlqRow>, filed: set<nat>, e: EventId)
    requires dlq.Keys == {0, 1} && forall d | d in dlq :: dlq[d].eventId == e
    ensures 0 in filed && 1 in filed ==> |FiledFor(dlq, filed, e)| == 2
  {
    assert 0 in dlq.Keys && 1 in dlq.Keys;
    if 0 in filed && 1 in filed {
      assert FiledFor(dlq, filed, e) == {0, 1};
    }
  }
}
