/** Whole runs of the pipeline from any customer base: what holds at their end, whatever happened on the way. */
module Runs {
  import opened Types
  import opened Scoring
  import opened Database
  import opened Effects
  import opened Broker
  import opened Pipeline
  import opened Safety
  import opened Accounting

  ghost predicate Inv(cfg: Config, base: map<CustomerId, Customer>, s: Sys) {
    && WellFormed(s.db)
    && EffectsExact(cfg.q, base, s.db)
    && NothingLost(s.db, s.recons)
    && LocksValid(s.db, s.recons)
    && MessagesValid(s.db, s.stream, s.recons, s.now)
    && Balanced(s.db, s.hist)
    && DuplicatesBounded(s.db, s.stream, s.recons, s.hist.rolled)
  }

  ghost predicate Legal(cfg: Config, s: Sys, steps: seq<Step>)
    decreases |steps|
  {
    && Valid(s.stream)
    && (steps == [] || (Enabled(cfg, s, steps[0]) && Legal(cfg, Next(cfg, s, steps[0]), steps[1..])))
  }

  ghost function Run(cfg: Config, s: Sys, steps: seq<Step>): Sys
    requires Legal(cfg, s, steps)
    decreases |steps|
  {
    if steps == [] then s else Run(cfg, Next(cfg, s, steps[0]), steps[1..])
  }

  lemma WellFormedStep(cfg: Config, s: Sys, step: Step)
    requires Enabled(cfg, s, step) && WellFormed(s.db)
    ensures WellFormed(NextDb(cfg, s, step))
  {
    hide Absorb, Touch;
  }

  lemma EffectsStep(cfg: Config, base: map<CustomerId, Customer>, s: Sys, step: Step)
    requires Enabled(cfg, s, step) && WellFormed(s.db) && EffectsExact(cfg.q, base, s.db)
    ensures EffectsExact(cfg.q, base, NextDb(cfg, s, step))
  {
    hide EffectsExact, WellFormed, DoneBy, Process, Fail, Replay, PersistOne;
    match step
    case Ingest(body) => PersistKeepsEffects(cfg.q, base, s.db, body, s.now);
    case Replayed(d) => ReplayKeepsEffects(cfg.q, base, s.db, d, s.now);
    case Attempt(w) => {
      if Process(cfg.q, s.db, Head(s, w), s.now).Ok? {
        ProcessKeepsEffects(cfg.q, base, s.db, Head(s, w), s.now);
      }
    }
    case DeadLetter(w) => FailKeepsEffects(cfg.q, base, s.db, Head(s, w), cfg.maxRetries);
    case BlindDeadLetter(_) => SameTablesKeepEffects(cfg.q, base, s.db, NextDb(cfg, s, step));
    case Commit(_, _) => SameTablesKeepEffects(cfg.q, base, s.db, NextDb(cfg, s, step));
    case _ => {}
  }

  lemma InvStart(cfg: Config, base: map<CustomerId, Customer>, now: int)
    ensures Inv(cfg, base, Start(base, now))
  {
    hide Summarizes;
  }

  lemma InvStep(cfg: Config, base: map<CustomerId, Customer>, s: Sys, step: Step)
    requires Enabled(cfg, s, step) && Inv(cfg, base, s)
    ensures Valid(s.stream) && Inv(cfg, base, Next(cfg, s, step))
  {
    hide WellFormed, EffectsExact, NothingLost, LocksValid, Balanced, DuplicatesBounded,
         NextDb, NextStream, NextRecons, NextTasks, NextFiled, NextRolled;
    WellFormedStep(cfg, s, step);
    EffectsStep(cfg, base, s, step);
    NothingLostStep(cfg, s, step);
    LocksValidStep(cfg, s, step);
    MessagesValidStep(cfg, s, step);
    BalancedStep(cfg, s, step);
    DuplicatesBoundedStep(cfg, s, step);
  }

  /** Every state that any legal sequence of steps reaches satisfies the invariant. */
  lemma {:induction false} InvRun(cfg: Config, base: map<CustomerId, Customer>, s: Sys, steps: seq<Step>)
    requires Inv(cfg, base, s) && Legal(cfg, s, steps)
    ensures Inv(cfg, base, Run(cfg, s, steps))
    decreases |steps|
  {
    hide Inv, Enabled, Next;
    if steps != [] {
      InvStep(cfg, base, s, steps[0]);
      InvRun(cfg, base, Next(cfg, s, steps[0]), steps[1..]);
    }
  }

  lemma StreamFacts(cfg: Config, base: map<CustomerId, Customer>, s: Sys)
    requires Inv(cfg, base, s)
    ensures StreamValid(s.stream, s.now) && WellFormed(s.db)
    ensures RowsValid(s.db.outbox, s.stream, s.now)
  {}

  lemma OneStep(cfg: Config, base: map<CustomerId, Customer>, s: Sys, step: Step)
    requires Inv(cfg, base, s) && Enabled(cfg, s, step)
    ensures Valid(s.stream) && Legal(cfg, s, [step]) && Run(cfg, s, [step]) == Next(cfg, s, step)
    ensures Inv(cfg, base, Next(cfg, s, step))
  {
    hide Enabled, Next, NextDb, NextStream;
    InvStep(cfg, base, s, step);
    StreamFacts(cfg, base, Next(cfg, s, step));
    hide Inv;
    assert [step][1..] == [];
    assert Legal(cfg, Next(cfg, s, step), []);
  }

  lemma {:induction false} RunConcat(cfg: Config, s: Sys, a: seq<Step>, b: seq<Step>)
    requires Legal(cfg, s, a) && Legal(cfg, Run(cfg, s, a), b)
    ensures Legal(cfg, s, a + b) && Run(cfg, s, a + b) == Run(cfg, Run(cfg, s, a), b)
    decreases |a|
  {
    hide Enabled, Next;
    if a == [] {
      assert a + b == b;
    } else {
      RunConcat(cfg, Next(cfg, s, a[0]), a[1..], b);
      assert (a + b)[0] == a[0] && (a + b)[1..] == a[1..] + b;
    }
  }

  /** A run goes on with one more step. */
  lemma RunSnoc(cfg: Config, base: map<CustomerId, Customer>, s: Sys, steps: seq<Step>, step: Step)
    requires Inv(cfg, base, s) && Legal(cfg, s, steps) && Enabled(cfg, Run(cfg, s, steps), step)
    ensures Valid(Run(cfg, s, steps).stream) && Legal(cfg, s, steps + [step])
    ensures Run(cfg, s, steps + [step]) == Next(cfg, Run(cfg, s, steps), step)
  {
    hide Inv, Enabled, Next, Legal, Run;
    InvRun(cfg, base, s, steps);
    OneStep(cfg, base, Run(cfg, s, steps), step);
    RunConcat(cfg, s, steps, [step]);
  }

  ghost predicate Reachable(cfg: Config, base: map<CustomerId, Customer>, s: Sys) {
    exists now: int, steps :: Legal(cfg, Start(base, now), steps) && Run(cfg, Start(base, now), steps) == s
  }

  lemma ReachableInv(cfg: Config, base: map<CustomerId, Customer>, s: Sys)
    requires Reachable(cfg, base, s)
    ensures Inv(cfg, base, s)
  {
    hide Inv;
    var now: int, steps :| Legal(cfg, Start(base, now), steps) && Run(cfg, Start(base, now), steps) == s;
    InvStart(cfg, base, now);
    InvRun(cfg, base, Start(base, now), steps);
  }

  lemma ReachableRun(cfg: Config, base: map<CustomerId, Customer>, s: Sys, steps: seq<Step>)
    requires Reachable(cfg, base, s) && Legal(cfg, s, steps)
    ensures Reachable(cfg, base, Run(cfg, s, steps))
  {
    hide Legal, Run, Start;
    var now: int, before :| Legal(cfg, Start(base, now), before) && Run(cfg, Start(base, now), before) == s;
    RunConcat(cfg, Start(base, now), before, steps);
    assert Legal(cfg, Start(base, now), before + steps);
  }

  lemma ReachableStep(cfg: Config, base: map<CustomerId, Customer>, s: Sys, step: Step)
    requires Reachable(cfg, base, s) && Enabled(cfg, s, step)
    ensures Valid(s.stream) && Reachable(cfg, base, Next(cfg, s, step))
  {
    hide Legal, Run, Next, Enabled, Reachable, Inv;
    ReachableInv(cfg, base, s);
    OneStep(cfg, base, s, step);
    ReachableRun(cfg, base, s, [step]);
  }

  // ---------- The guarantees ----------

  /** Exactly-once effects: the customer tables are the closed form over exactly the processed events. */
  lemma ExactlyOnceEffects(cfg: Config, base: map<CustomerId, Customer>, s: Sys, c: CustomerId)
    requires Reachable(cfg, base, s) && c in s.db.customers
    ensures var done := DoneBy(s.db.events, c);
            && (c in s.db.engagement <==> done != map[])
            && (c in s.db.engagement ==> Summarizes(cfg.q, done, s.db.engagement[c]))
            && ProfileMatches(BaseOf(base, c), done, s.db.customers[c])
  {
    ReachableInv(cfg, base, s);
    assert CustomerExact(cfg.q, base, s.db, c);
  }

  /** Two runs that have processed the same events of a customer, in any order and with any failures, agree on it. */
  lemma RunsAgree(cfg1: Config, cfg2: Config, base: map<CustomerId, Customer>, s: Sys, t: Sys, c: CustomerId)
    requires Reachable(cfg1, base, s) && Reachable(cfg2, base, t) && cfg1.q == cfg2.q
    requires c in s.db.customers && c in t.db.customers && DoneBy(s.db.events, c) == DoneBy(t.db.events, c)
    ensures Lookup(s.db.engagement, c) == Lookup(t.db.engagement, c) && s.db.customers[c] == t.db.customers[c]
  {
    ReachableInv(cfg1, base, s);
    ReachableInv(cfg2, base, t);
    SameEventsSameRows(cfg1.q, base, s.db, t.db, c);
  }

  /** Zero loss: a pending event always has an outbox row, and one that no cleanup under way will take. */
  lemma NoEventLost(cfg: Config, base: map<CustomerId, Customer>, s: Sys, id: EventId) returns (o: nat)
    requires Reachable(cfg, base, s) && IsPending(s.db, id)
    ensures o in s.db.outbox && s.db.outbox[o].eventId == id
    ensures forall r | r in s.recons :: o !in s.recons[r].doomed
  {
    ReachableInv(cfg, base, s);
    o :| SafeRow(s.db, s.recons, id, o);
  }

  /** Dead letters written for an event minus its replays is one or zero, and counts its outbox rows. */
  lemma DeadLettersBalance(cfg: Config, base: map<CustomerId, Customer>, s: Sys, e: EventId)
    requires Reachable(cfg, base, s) && e in s.db.events
    ensures |FiledFor(s.db.dlq, s.hist.filed, e)| - |ReplayedFor(s.db.dlq, e)|
         == if s.db.events[e].status == Failed then 1 else 0
    ensures |CreatedFor(s.hist.created, e)| == 1 + |ReplayedFor(s.db.dlq, e)|
    ensures s.db.events[e].status == Failed ==>
              exists d :: d in s.db.dlq && s.db.dlq[d].eventId == e && ReplayOutcomeOf(s.db, d) == Requeued
  {
    ReachableInv(cfg, base, s);
    assert EventBalanced(s.db, s.hist.filed, s.hist.created, e);
    if s.db.events[e].status == Failed {
      var d := FailedIsReplayable(s.db, s.hist, e);
    }
  }

  /** Live entries of one outbox row never exceed one plus the rolled-back reconciles that had published it. */
  lemma DuplicationBounded(cfg: Config, base: map<CustomerId, Customer>, s: Sys, o: nat)
    requires Reachable(cfg, base, s)
    ensures |Live(s.stream, o)| <= 1 + Count(s.hist.rolled, o)
  {
    ReachableInv(cfg, base, s);
  }

  /** A row is published only while no message it has recorded is in the stream. */
  lemma NeverRepublishedWhileLive(cfg: Config, s: Sys, step: Step, m: nat, o: nat)
    requires Enabled(cfg, s, step) && StreamValid(s.stream, s.now)
    requires m !in s.stream.entries && m in NextStream(cfg, s, step).entries
    requires NextStream(cfg, s, step).entries[m].source == Some(o)
    ensures step.Advance? && o in s.db.outbox
    ensures s.db.outbox[o].messageId.Some? ==> s.db.outbox[o].messageId.value !in s.stream.entries
    ensures NextStream(cfg, s, step).entries[m] == OwnEntry(s.db.outbox[o].eventId, o)
  {
    if !step.Advance? {
      PublishedStep(cfg, s, step);
    }
  }

  // ---------- What can never be undone ----------

  /** Events keep their identity and facts; a processed event stays processed, with the same completion time. */
  ghost predicate Later(db: Db, next: Db) {
    && (forall id | id in db.events ::
          && id in next.events
          && next.events[id].customerId == db.events[id].customerId
          && next.events[id].fact == db.events[id].fact
          && (db.events[id].status == Processed ==> next.events[id] == db.events[id]))
    && db.customers.Keys <= next.customers.Keys
  }

  lemma LaterStep(cfg: Config, s: Sys, step: Step)
    requires Enabled(cfg, s, step)
    ensures Later(s.db, NextDb(cfg, s, step))
  {
    hide Absorb, Touch, CommitOutbox;
  }

  /** Nothing processed ever becomes failed or pending again, over any continuation of any state. */
  lemma {:induction false} ProcessedIsFinal(cfg: Config, s: Sys, steps: seq<Step>)
    requires Legal(cfg, s, steps)
    ensures Later(s.db, Run(cfg, s, steps).db)
    decreases |steps|
  {
    if steps != [] {
      LaterStep(cfg, s, steps[0]);
      hide Enabled, NextDb, NextStream, NextRecons, NextTasks, NextHistory;
      ProcessedIsFinal(cfg, Next(cfg, s, steps[0]), steps[1..]);
    }
  }

  // ---------- Time stamps ----------

  ghost predicate EventStamped(evt: Event, now: int) {
    && (evt.processedAt.Some? <==> evt.status == Processed)
    && (evt.processedAt.Some? ==> evt.processedAt.value <= now)
  }

  ghost predicate RowsStamped(db: Db, now: int) {
    && (forall o | o in db.outbox :: db.outbox[o].createdAt <= now)
    && (forall d | d in db.dlq && db.dlq[d].replayedAt.Some? :: db.dlq[d].replayedAt.value <= now)
  }

  /** A completion time exactly on processed events, and no stamp in the future. */
  ghost predicate Stamped(db: Db, now: int) {
    (forall id | id in db.events :: EventStamped(db.events[id], now)) && RowsStamped(db, now)
  }

  lemma EventStampedStep(cfg: Config, s: Sys, step: Step, id: EventId)
    requires Enabled(cfg, s, step) && id in NextDb(cfg, s, step).events
    requires id in s.db.events ==> EventStamped(s.db.events[id], s.now)
    ensures EventStamped(NextDb(cfg, s, step).events[id], s.now)
  {
    hide Absorb, Touch, CommitOutbox;
  }

  lemma RowsStampedStep(cfg: Config, s: Sys, step: Step)
    requires Enabled(cfg, s, step) && RowsStamped(s.db, s.now)
    ensures RowsStamped(NextDb(cfg, s, step), s.now)
  {
    hide Absorb, Touch;
  }

  lemma StampedStep(cfg: Config, s: Sys, step: Step)
    requires Enabled(cfg, s, step) && Stamped(s.db, s.now)
    ensures Stamped(NextDb(cfg, s, step), if step.Tick? then step.t else s.now)
  {
    RowsStampedStep(cfg, s, step);
    forall id | id in NextDb(cfg, s, step).events {
      EventStampedStep(cfg, s, step, id);
    }
    assert step.Tick? ==> s.now <= step.t;
    hide NextDb, Enabled;
  }

  /**
   * Replay takes the completion time back, failure sets none: at the end of any run it is there exactly if processed.
   */
  lemma {:induction false} StampsExact(cfg: Config, s: Sys, steps: seq<Step>)
    requires Legal(cfg, s, steps) && Stamped(s.db, s.now)
    ensures Stamped(Run(cfg, s, steps).db, Run(cfg, s, steps).now)
    decreases |steps|
  {
    hide Stamped;
    if steps != [] {
      StampedStep(cfg, s, steps[0]);
      hide Enabled, NextDb, NextStream, NextRecons, NextTasks, NextHistory;
      StampsExact(cfg, Next(cfg, s, steps[0]), steps[1..]);
    }
  }

  // ---------- Retention ----------

  /** What a cleanup has chosen is older than the retention, and so it stays. */
  ghost predicate DoomedOld(cfg: Config, db: Db, recons: map<nat, Recon>, now: int) {
    forall r, o | r in recons && o in recons[r].doomed && o in db.outbox ::
      db.outbox[o].createdAt + cfg.retention < now
  }

  /** A row keeps its event and its age; only a commit takes rows away, and only such as were chosen. */
  lemma RowAges(cfg: Config, s: Sys, step: Step)
    requires Enabled(cfg, s, step) && WellFormed(s.db)
    ensures var next := NextDb(cfg, s, step).outbox;
            && (forall o | o in s.db.outbox && o !in next :: step.Commit? && o in s.recons[step.r].doomed)
            && (forall o | o in s.db.outbox && o in next ::
                  next[o].eventId == s.db.outbox[o].eventId && next[o].createdAt == s.db.outbox[o].createdAt)
            && (forall o | o in next && o !in s.db.outbox :: o == s.db.nextOutbox)
  {
    if !step.Commit? {
      OutboxStep(cfg, s, step);
      hide NextDb;
    }
  }

  /** A cleanup's choice: what another one chose before, or rows older than the retention now. */
  lemma ChoiceIsOld(cfg: Config, s: Sys, step: Step, r: nat, o: nat)
    requires Enabled(cfg, s, step)
    requires r in NextRecons(cfg, s, step) && o in NextRecons(cfg, s, step)[r].doomed
    ensures (r in s.recons && o in s.recons[r].doomed)
            || (o in s.db.outbox && s.db.outbox[o].createdAt + cfg.retention < s.now)
  {
    hide ClaimUnpublished;
  }

  lemma DoomedOldStep(cfg: Config, s: Sys, step: Step)
    requires Enabled(cfg, s, step) && WellFormed(s.db) && NothingLost(s.db, s.recons)
    requires DoomedOld(cfg, s.db, s.recons, s.now)
    ensures DoomedOld(cfg, NextDb(cfg, s, step), NextRecons(cfg, s, step), if step.Tick? then step.t else s.now)
  {
    assert step.Tick? ==> s.now <= step.t;
    RowAges(cfg, s, step);
    hide NextDb, NextRecons, Enabled;
    var db, recons := NextDb(cfg, s, step), NextRecons(cfg, s, step);
    forall r, o | r in recons && o in recons[r].doomed && o in db.outbox
      ensures db.outbox[o].createdAt + cfg.retention < s.now
    {
      ChoiceIsOld(cfg, s, step, r, o);
    }
  }

  lemma {:induction false} RowKept(cfg: Config, base: map<CustomerId, Customer>, s: Sys, steps: seq<Step>, o: nat)
    requires Inv(cfg, base, s) && DoomedOld(cfg, s.db, s.recons, s.now) && Legal(cfg, s, steps)
    ensures s.now <= Run(cfg, s, steps).now
    ensures DoomedOld(cfg, Run(cfg, s, steps).db, Run(cfg, s, steps).recons, Run(cfg, s, steps).now)
    ensures var t := Run(cfg, s, steps);
            o in s.db.outbox && t.now - s.db.outbox[o].createdAt <= cfg.retention ==>
              && o in t.db.outbox
              && t.db.outbox[o].eventId == s.db.outbox[o].eventId
              && t.db.outbox[o].createdAt == s.db.outbox[o].createdAt
    decreases |steps|
  {
    if steps != [] {
      hide Inv, DoomedOld, Next, Enabled;
      RowKeptOnce(cfg, base, s, steps[0], o);
      RowKept(cfg, base, Next(cfg, s, steps[0]), steps[1..], o);
    }
  }

  lemma RowKeptOnce(cfg: Config, base: map<CustomerId, Customer>, s: Sys, step: Step, o: nat)
    requires Inv(cfg, base, s) && DoomedOld(cfg, s.db, s.recons, s.now) && Enabled(cfg, s, step)
    ensures Valid(s.stream)
    ensures var t := Next(cfg, s, step);
            && Inv(cfg, base, t) && DoomedOld(cfg, t.db, t.recons, t.now) && s.now <= t.now
            && (o in s.db.outbox && t.now - s.db.outbox[o].createdAt <= cfg.retention ==>
                  && o in t.db.outbox
                  && t.db.outbox[o].eventId == s.db.outbox[o].eventId
                  && t.db.outbox[o].createdAt == s.db.outbox[o].createdAt)
  {
    InvStep(cfg, base, s, step);
    RowAges(cfg, s, step);
    DoomedOldStep(cfg, s, step);
    assert o in s.db.outbox && o !in NextDb(cfg, s, step).outbox ==>
        s.db.outbox[o].createdAt + cfg.retention < s.now by {
      hide NextDb;
    }
    hide Inv, NextDb, NextStream, NextRecons, NextTasks, NextHistory, DoomedOld;
  }

  /** Whatever happens, an outbox row is there, for its event, as long as it is no older than the retention. */
  lemma YoungRowsKept(cfg: Config, base: map<CustomerId, Customer>, s: Sys, steps: seq<Step>, o: nat)
    requires Reachable(cfg, base, s) && Legal(cfg, s, steps) && o in s.db.outbox
    requires Run(cfg, s, steps).now - s.db.outbox[o].createdAt <= cfg.retention
    ensures var rows := Run(cfg, s, steps).db.outbox;
            && o in rows && rows[o].eventId == s.db.outbox[o].eventId
            && rows[o].createdAt == s.db.outbox[o].createdAt
  {
    hide Inv, Legal, Run, DoomedOld;
    var now: int, before :| Legal(cfg, Start(base, now), before) && Run(cfg, Start(base, now), before) == s;
    InvStart(cfg, base, now);
    NothingDoomed(cfg, base, now);
    RowKept(cfg, base, Start(base, now), before, o);
    InvRun(cfg, base, Start(base, now), before);
    RowKept(cfg, base, s, steps, o);
  }

  lemma NothingDoomed(cfg: Config, base: map<CustomerId, Customer>, now: int)
    ensures DoomedOld(cfg, Start(base, now).db, Start(base, now).recons, now)
  {}
}
