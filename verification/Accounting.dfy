/** Counting laws: dead-letter rows against replays, outbox rows against replays, stream entries against rollbacks. */
module Accounting {
  import opened Types
  import opened Scoring
  import opened Database
  import opened Broker
  import opened Pipeline
  import opened Safety

  // ---------- Dead letters and replays ----------

  /** Dead-letter rows written by a step that took the event from pending to failed. */
  function FiledFor(dlq: map<nat, DlqRow>, filed: set<nat>, e: EventId): set<nat> {
    set d | d in filed && d in dlq && dlq[d].eventId == e
  }

  function ReplayedFor(dlq: map<nat, DlqRow>, e: EventId): set<nat> {
    set d | d in dlq && dlq[d].eventId == e && dlq[d].replayedAt.Some?
  }

  /** Every outbox row ever written for an event, deleted or not. */
  function CreatedFor(created: map<nat, EventId>, e: EventId): set<nat> {
    set o | o in created && created[o] == e
  }

  ghost predicate EventBalanced(db: Db, filed: set<nat>, created: map<nat, EventId>, e: EventId) {
    var replayed := |ReplayedFor(db.dlq, e)|;
    if e in db.events then
      && |FiledFor(db.dlq, filed, e)| == replayed + (if db.events[e].status == Failed then 1 else 0)
      && |CreatedFor(created, e)| == 1 + replayed
    else
      |FiledFor(db.dlq, filed, e)| == 0 && replayed == 0 && |CreatedFor(created, e)| == 0
  }

  ghost predicate HistoryValid(db: Db, filed: set<nat>, created: map<nat, EventId>) {
    && filed <= db.dlq.Keys
    && (forall o | o in created :: o < db.nextOutbox)
    && (forall o | o in db.outbox :: o in created && created[o] == db.outbox[o].eventId)
  }

  ghost predicate Balanced(db: Db, hist: History) {
    && HistoryValid(db, hist.filed, hist.created)
    && forall e: EventId :: EventBalanced(db, hist.filed, hist.created, e)
  }

  lemma RecordedSame(created: map<nat, EventId>, outbox: map<nat, OutboxRow>)
    requires forall o | o in outbox :: o in created && created[o] == outbox[o].eventId
    ensures Recorded(created, outbox) == created
  {}

  lemma RecordedNew(created: map<nat, EventId>, outbox: map<nat, OutboxRow>, o: nat, row: OutboxRow, e: EventId)
    requires forall p | p in outbox :: p in created && created[p] == outbox[p].eventId
    requires o !in created
    ensures Recorded(created, outbox[o := row]) == created[o := row.eventId]
    ensures |CreatedFor(created[o := row.eventId], e)| == |CreatedFor(created, e)| + (if row.eventId == e then 1 else 0)
  {
    var more := created[o := row.eventId];
    if row.eventId == e {
      assert CreatedFor(more, e) == CreatedFor(created, e) + {o};
    } else {
      assert CreatedFor(more, e) == CreatedFor(created, e);
    }
  }

  /** Steps that touch neither the dead letters, nor which events exist or failed, nor the rows ever written. */
  lemma UntouchedBalance(db: Db, next: Db, filed: set<nat>, created: map<nat, EventId>, e: EventId)
    requires EventBalanced(db, filed, created, e)
    requires next.dlq == db.dlq
    requires e in next.events <==> e in db.events
    requires e in db.events ==> (next.events[e].status == Failed <==> db.events[e].status == Failed)
    ensures EventBalanced(next, filed, created, e)
  {}

  lemma IngestBalances(db: Db, body: EventIn, now: int, filed: set<nat>, created: map<nat, EventId>, e: EventId)
    requires WellFormed(db) && HistoryValid(db, filed, created) && EventBalanced(db, filed, created, e)
    ensures var next := PersistOne(db, body, now);
            EventBalanced(next, filed, Recorded(created, next.outbox), e)
  {
    hide ReplayedFor, FiledFor, CreatedFor;
    var next := PersistOne(db, body, now);
    if body.eventId in db.events {
      RecordedSame(created, db.outbox);
    } else {
      RecordedNew(created, db.outbox, db.nextOutbox, OutboxRow(body.eventId, now, None, None), e);
    }
  }

  lemma DlqInsert(dlq: map<nat, DlqRow>, filed: set<nat>, d: nat, row: DlqRow, e: EventId)
    requires d !in dlq && row.replayedAt == None && filed <= dlq.Keys
    ensures ReplayedFor(dlq[d := row], e) == ReplayedFor(dlq, e)
    ensures FiledFor(dlq[d := row], filed, e) == FiledFor(dlq, filed, e)
    ensures |FiledFor(dlq[d := row], filed + {d}, e)| == |FiledFor(dlq, filed, e)| + (if row.eventId == e then 1 else 0)
  {
    var both := FiledFor(dlq[d := row], filed + {d}, e);
    if row.eventId == e {
      assert both == FiledFor(dlq, filed, e) + {d};
    } else {
      assert both == FiledFor(dlq, filed, e);
    }
  }

  lemma DlqReplay(dlq: map<nat, DlqRow>, filed: set<nat>, d: nat, now: int, e: EventId)
    requires d in dlq && dlq[d].replayedAt == None
    ensures var after := dlq[d := dlq[d].(replayedAt := Some(now))];
            && FiledFor(after, filed, e) == FiledFor(dlq, filed, e)
            && |ReplayedFor(after, e)| == |ReplayedFor(dlq, e)| + (if dlq[d].eventId == e then 1 else 0)
  {
    var after := dlq[d := dlq[d].(replayedAt := Some(now))];
    if dlq[d].eventId == e {
      assert ReplayedFor(after, e) == ReplayedFor(dlq, e) + {d};
    } else {
      assert ReplayedFor(after, e) == ReplayedFor(dlq, e);
    }
  }

  lemma ReplayBalances(db: Db, d: nat, now: int, filed: set<nat>, created: map<nat, EventId>, e: EventId)
    requires WellFormed(db) && HistoryValid(db, filed, created) && EventBalanced(db, filed, created, e)
    ensures var next := Replay(db, d, now);
            EventBalanced(next, filed, Recorded(created, next.outbox), e)
  {
    hide CreatedFor, ReplayedFor, FiledFor;
    if ReplayOutcomeOf(db, d) == Requeued {
      RecordedNew(created, db.outbox, db.nextOutbox, OutboxRow(db.dlq[d].eventId, now, None, None), e);
      DlqReplay(db.dlq, filed, d, now, e);
    } else {
      RecordedSame(created, db.outbox);
    }
  }

  /** One more dead-letter row: counted exactly when its step took the event from pending to failed. */
  lemma AddDlqBalances(db: Db, id: EventId, retries: nat, filed: set<nat>, created: map<nat, EventId>, e: EventId)
    requires WellFormed(db) && HistoryValid(db, filed, created) && EventBalanced(db, filed, created, e)
    ensures EventBalanced(AddDlq(db, id, retries), filed, created, e)
    ensures IsPending(db, id) ==>
              EventBalanced(MarkFailed(AddDlq(db, id, retries), id), filed + {db.nextDlq}, created, e)
  {
    hide CreatedFor, ReplayedFor, FiledFor;
    DlqInsert(db.dlq, filed, db.nextDlq, DlqRow(id, retries, None), e);
  }

  lemma FailBalances(db: Db, p: Payload, retries: nat, filed: set<nat>, created: map<nat, EventId>, e: EventId)
    requires WellFormed(db) && HistoryValid(db, filed, created) && EventBalanced(db, filed, created, e)
    ensures var more := if IsPending(db, FiledUnder(p)) then filed + {db.nextDlq} else filed;
            EventBalanced(Fail(db, p, retries), more, created, e)
  {
    AddDlqBalances(db, FiledUnder(p), retries, filed, created, e);
  }

  /** A row that is written is recorded, and a row once recorded keeps its event. */
  lemma RowsRecorded(cfg: Config, s: Sys, step: Step)
    requires Enabled(cfg, s, step) && WellFormed(s.db) && HistoryValid(s.db, s.hist.filed, s.hist.created)
    ensures var next, created := NextDb(cfg, s, step), s.hist.created;
            && s.db.nextOutbox <= next.nextOutbox
            && forall o | o in next.outbox ::
                o < next.nextOutbox && (o in created ==> created[o] == next.outbox[o].eventId)
  {
    if !step.Commit? {
      OutboxStep(cfg, s, step);
      hide NextDb;
    }
  }

  lemma FiledExist(cfg: Config, s: Sys, step: Step)
    requires Enabled(cfg, s, step) && s.hist.filed <= s.db.dlq.Keys
    ensures NextFiled(cfg, s, step) <= NextDb(cfg, s, step).dlq.Keys
  {
    hide Absorb, Touch;
    assert s.db.dlq.Keys <= NextDb(cfg, s, step).dlq.Keys;
  }

  lemma HistoryValidStep(cfg: Config, s: Sys, step: Step)
    requires Enabled(cfg, s, step) && WellFormed(s.db) && HistoryValid(s.db, s.hist.filed, s.hist.created)
    ensures var h := NextHistory(cfg, s, step); HistoryValid(NextDb(cfg, s, step), h.filed, h.created)
  {
    hide NextDb, NextFiled, NextRolled, Enabled;
    RowsRecorded(cfg, s, step);
    FiledExist(cfg, s, step);
  }

  lemma DeadLetterBalances(cfg: Config, s: Sys, w: nat, e: EventId)
    requires Enabled(cfg, s, DeadLetter(w)) && WellFormed(s.db) && Balanced(s.db, s.hist)
    ensures EventBalanced(NextDb(cfg, s, DeadLetter(w)), NextFiled(cfg, s, DeadLetter(w)), s.hist.created, e)
  {
    FailBalances(s.db, Head(s, w), cfg.maxRetries, s.hist.filed, s.hist.created, e);
    hide EventBalanced, Fail;
  }

  lemma BlindDeadLetterBalances(cfg: Config, s: Sys, w: nat, e: EventId)
    requires Enabled(cfg, s, BlindDeadLetter(w)) && WellFormed(s.db) && Balanced(s.db, s.hist)
    ensures EventBalanced(NextDb(cfg, s, BlindDeadLetter(w)), s.hist.filed, s.hist.created, e)
  {
    AddDlqBalances(s.db, FiledUnder(Head(s, w)), cfg.maxRetries, s.hist.filed, s.hist.created, e);
    hide EventBalanced, AddDlq;
  }

  /** Neither dead letters, nor which events exist or have failed, nor any row's event: nothing these steps count. */
  lemma OtherBalances(cfg: Config, s: Sys, step: Step, e: EventId)
    requires Enabled(cfg, s, step) && WellFormed(s.db) && Balanced(s.db, s.hist)
    requires !step.Ingest? && !step.Replayed? && !step.DeadLetter? && !step.BlindDeadLetter?
    ensures EventBalanced(NextDb(cfg, s, step), s.hist.filed, s.hist.created, e)
  {
    hide Absorb, Touch, EventBalanced;
    assert EventBalanced(s.db, s.hist.filed, s.hist.created, e);
    UntouchedBalance(s.db, NextDb(cfg, s, step), s.hist.filed, s.hist.created, e);
  }

  /** Only ingestion and replay write outbox rows. */
  lemma NoNewRows(cfg: Config, s: Sys, step: Step)
    requires Enabled(cfg, s, step) && HistoryValid(s.db, s.hist.filed, s.hist.created)
    requires !step.Ingest? && !step.Replayed?
    ensures Recorded(s.hist.created, NextDb(cfg, s, step).outbox) == s.hist.created
  {
    hide Absorb, Touch;
    RecordedSame(s.hist.created, NextDb(cfg, s, step).outbox);
  }

  lemma EventBalancedStep(cfg: Config, s: Sys, step: Step, e: EventId)
    requires Enabled(cfg, s, step) && WellFormed(s.db) && Balanced(s.db, s.hist)
    ensures var h := NextHistory(cfg, s, step); EventBalanced(NextDb(cfg, s, step), h.filed, h.created, e)
  {
    hide EventBalanced, Recorded, WellFormed, HistoryValid, NextRolled, PersistOne, Replay, Fail, AddDlq, Process;
    var filed, created := s.hist.filed, s.hist.created;
    assert EventBalanced(s.db, filed, created, e);
    if !step.Ingest? && !step.Replayed? {
      NoNewRows(cfg, s, step);
    }
    match step
    case Ingest(body) => IngestBalances(s.db, body, s.now, filed, created, e);
    case Replayed(d) => ReplayBalances(s.db, d, s.now, filed, created, e);
    case DeadLetter(w) => DeadLetterBalances(cfg, s, w, e);
    case BlindDeadLetter(w) => BlindDeadLetterBalances(cfg, s, w, e);
    case _ => OtherBalances(cfg, s, step, e);
  }

  lemma BalancedStep(cfg: Config, s: Sys, step: Step)
    requires Enabled(cfg, s, step) && WellFormed(s.db) && Balanced(s.db, s.hist)
    ensures Balanced(NextDb(cfg, s, step), NextHistory(cfg, s, step))
  {
    hide EventBalanced, HistoryValid, NextHistory, NextDb;
    HistoryValidStep(cfg, s, step);
    forall e: EventId {
      EventBalancedStep(cfg, s, step, e);
    }
  }

  /** A failed event always has a dead-letter row that replay accepts, also when orphan rows share its id. */
  lemma FailedIsReplayable(db: Db, hist: History, e: EventId) returns (d: nat)
    requires Balanced(db, hist) && e in db.events && db.events[e].status == Failed
    ensures d in db.dlq && db.dlq[d].eventId == e && ReplayOutcomeOf(db, d) == Requeued
  {
    var filed, replayed := FiledFor(db.dlq, hist.filed, e), ReplayedFor(db.dlq, e);
    assert EventBalanced(db, hist.filed, hist.created, e);
    if filed <= replayed {
      SubsetSize(filed, replayed);
      assert false;
    }
    d :| d in filed && d !in replayed;
  }

  // ---------- Stream entries and rollbacks ----------

  /** The live entries that were published from outbox row `o`. */
  function Live(b: Stream, o: nat): set<nat> {
    set m | m in b.entries && b.entries[m].source == Some(o)
  }

  function RecordedMessage(row: OutboxRow): set<nat> {
    if row.messageId.Some? then {row.messageId.value} else {}
  }

  predicate SentNow(recons: map<nat, Recon>, o: nat) {
    exists r :: r in recons && o in recons[r].sent
  }

  /** Apart from the recorded message, only rolled-back reconciles have left entries of this row. */
  ghost predicate RowBounded(b: Stream, row: OutboxRow, rolled: nat, o: nat) {
    |Live(b, o) - RecordedMessage(row)| <= rolled
  }

  /** The same for a row that an open reconcile has published again: its recorded message was gone. */
  ghost predicate MarkBounded(b: Stream, row: OutboxRow, k: Mark, rolled: nat, o: nat) {
    !MessageLive(row, b) && |Live(b, o) - {k.mid}| <= rolled
  }

  ghost predicate SourcesKnown(b: Stream, n: nat) {
    forall m | m in b.entries && b.entries[m].source.Some? :: b.entries[m].source.value < n
  }

  ghost predicate LiveBounded(b: Stream, rolled: map<nat, nat>) {
    forall o: nat :: |Live(b, o)| <= 1 + Count(rolled, o)
  }

  ghost predicate RowsBounded(outbox: map<nat, OutboxRow>, b: Stream, recons: map<nat, Recon>, rolled: map<nat, nat>) {
    forall o | o in outbox && !SentNow(recons, o) :: RowBounded(b, outbox[o], Count(rolled, o), o)
  }

  ghost predicate MarksBounded(outbox: map<nat, OutboxRow>, b: Stream, recons: map<nat, Recon>, rolled: map<nat, nat>) {
    forall r, o | r in recons && o in recons[r].marks && o in outbox ::
      if o in recons[r].sent then MarkBounded(b, outbox[o], recons[r].marks[o], Count(rolled, o), o)
      else outbox[o].messageId == Some(recons[r].marks[o].mid)
  }

  ghost predicate DuplicatesBounded(db: Db, b: Stream, recons: map<nat, Recon>, rolled: map<nat, nat>) {
    && SourcesKnown(b, db.nextOutbox)
    && LiveBounded(b, rolled)
    && RowsBounded(db.outbox, b, recons, rolled)
    && MarksBounded(db.outbox, b, recons, rolled)
  }

  /** No published entry appears that was not there before. */
  ghost predicate NothingPublished(b: Stream, next: Stream) {
    && Follows(b, next)
    && forall m | m in next.entries && next.entries[m].source.Some? :: m in b.entries && next.entries[m] == b.entries[m]
  }

  lemma PublishedStep(cfg: Config, s: Sys, step: Step)
    requires Enabled(cfg, s, step) && StreamValid(s.stream, s.now) && !step.Advance?
    ensures NothingPublished(s.stream, NextStream(cfg, s, step))
  {
    StreamStep(cfg, s, step);
  }

  lemma LiveShrinks(b: Stream, next: Stream, o: nat, x: set<nat>)
    requires NothingPublished(b, next)
    ensures |Live(next, o)| <= |Live(b, o)| && |Live(next, o) - x| <= |Live(b, o) - x|
  {
    SubsetSize(Live(next, o), Live(b, o));
    SubsetSize(Live(next, o) - x, Live(b, o) - x);
  }

  lemma ShrinkingRows(outbox: map<nat, OutboxRow>, b: Stream, recons: map<nat, Recon>, rolled: map<nat, nat>,
                      next: Stream)
    requires RowsBounded(outbox, b, recons, rolled) && NothingPublished(b, next)
    ensures RowsBounded(outbox, next, recons, rolled)
  {
    hide Live, NothingPublished, RecordedMessage, SentNow;
    forall o | o in outbox && !SentNow(recons, o)
      ensures RowBounded(next, outbox[o], Count(rolled, o), o)
    {
      assert RowBounded(b, outbox[o], Count(rolled, o), o);
      LiveShrinks(b, next, o, RecordedMessage(outbox[o]));
    }
  }

  lemma ShrinkingMark(b: Stream, next: Stream, now: int, row: OutboxRow, k: Mark, rolled: nat, o: nat)
    requires NothingPublished(b, next) && RowValid(b, now, o, row) && MarkBounded(b, row, k, rolled, o)
    ensures MarkBounded(next, row, k, rolled, o)
  {
    hide Live;
    LiveShrinks(b, next, o, {k.mid});
  }

  lemma ShrinkingMarks(outbox: map<nat, OutboxRow>, b: Stream, recons: map<nat, Recon>, rolled: map<nat, nat>,
                       now: int, next: Stream)
    requires MarksBounded(outbox, b, recons, rolled) && RowsValid(outbox, b, now) && NothingPublished(b, next)
    ensures MarksBounded(outbox, next, recons, rolled)
  {
    hide MarkBounded, NothingPublished, RowValid;
    forall r, o | r in recons && o in recons[r].marks && o in outbox && o in recons[r].sent
      ensures MarkBounded(next, outbox[o], recons[r].marks[o], Count(rolled, o), o)
    {
      ShrinkingMark(b, next, now, outbox[o], recons[r].marks[o], Count(rolled, o), o);
    }
  }

  lemma ShrinkingLive(b: Stream, rolled: map<nat, nat>, next: Stream)
    requires LiveBounded(b, rolled) && NothingPublished(b, next)
    ensures LiveBounded(next, rolled)
  {
    hide Live, NothingPublished;
    forall o: nat {
      LiveShrinks(b, next, o, {});
    }
  }

  lemma ShrinkingKeepsBounds(db: Db, b: Stream, recons: map<nat, Recon>, rolled: map<nat, nat>, now: int, next: Stream)
    requires DuplicatesBounded(db, b, recons, rolled) && MessagesValid(db, b, recons, now)
    requires NothingPublished(b, next)
    ensures DuplicatesBounded(db, next, recons, rolled)
  {
    assert SourcesKnown(next, db.nextOutbox);
    hide LiveBounded, RowsBounded, MarksBounded, NothingPublished, SourcesKnown, RowsValid, MarksValid, StreamValid;
    ShrinkingLive(b, rolled, next);
    ShrinkingRows(db.outbox, b, recons, rolled, next);
    ShrinkingMarks(db.outbox, b, recons, rolled, now, next);
  }

  /** The tables and the transactions' holdings as they were, but for new rows and rows newly claimed. */
  lemma TablesKeepBounds(db: Db, b: Stream, recons: map<nat, Recon>, rolled: map<nat, nat>, nextDb: Db,
                         next: map<nat, Recon>)
    requires DuplicatesBounded(db, b, recons, rolled) && WellFormed(db)
    requires forall r | r in recons :: r in next && next[r].marks == recons[r].marks && next[r].sent == recons[r].sent
    requires forall r | r in next && r !in recons :: next[r].marks == map[] && next[r].sent == {}
    requires OutboxExtends(db, nextDb) && forall r | r in recons :: recons[r].marks.Keys <= db.outbox.Keys
    ensures DuplicatesBounded(nextDb, b, next, rolled)
  {
    assert SourcesKnown(b, nextDb.nextOutbox);
    TablesKeepRows(db, b, recons, rolled, nextDb, next);
    TablesKeepMarks(db.outbox, b, recons, rolled, nextDb.outbox, next);
    hide LiveBounded, RowsBounded, MarksBounded, SourcesKnown, OutboxExtends, WellFormed;
  }

  lemma TablesKeepRows(db: Db, b: Stream, recons: map<nat, Recon>, rolled: map<nat, nat>, nextDb: Db,
                       next: map<nat, Recon>)
    requires RowsBounded(db.outbox, b, recons, rolled) && SourcesKnown(b, db.nextOutbox) && OutboxExtends(db, nextDb)
    requires forall r | r in recons :: r in next && next[r].sent == recons[r].sent
    requires forall r | r in next && r !in recons :: next[r].sent == {}
    ensures RowsBounded(nextDb.outbox, b, next, rolled)
  {
    hide Live, RowBounded, SourcesKnown, SentNow;
    NewRowBounded(b, db.nextOutbox, rolled);
    forall o | o in nextDb.outbox && !SentNow(next, o)
      ensures RowBounded(b, nextDb.outbox[o], Count(rolled, o), o)
    {
      SentSame(recons, next, o);
    }
  }

  lemma TablesKeepMarks(outbox: map<nat, OutboxRow>, b: Stream, recons: map<nat, Recon>, rolled: map<nat, nat>,
                        nextOutbox: map<nat, OutboxRow>, next: map<nat, Recon>)
    requires MarksBounded(outbox, b, recons, rolled)
    requires forall r | r in recons :: r in next && next[r].marks == recons[r].marks && next[r].sent == recons[r].sent
    requires forall r | r in next && r !in recons :: next[r].marks == map[]
    requires forall r | r in recons :: recons[r].marks.Keys <= outbox.Keys
    requires forall o | o in outbox :: o in nextOutbox && nextOutbox[o] == outbox[o]
    ensures MarksBounded(nextOutbox, b, next, rolled)
  {
    hide MarkBounded;
  }

  lemma SentSame(recons: map<nat, Recon>, next: map<nat, Recon>, o: nat)
    requires forall r | r in recons :: r in next && next[r].sent == recons[r].sent
    requires forall r | r in next && r !in recons :: next[r].sent == {}
    ensures SentNow(next, o) <==> SentNow(recons, o)
  {
    if r :| r in recons && o in recons[r].sent { assert r in next && o in next[r].sent; }
  }

  /** Of a row not written yet there are no entries. */
  lemma NewRowBounded(b: Stream, o: nat, rolled: map<nat, nat>)
    requires SourcesKnown(b, o)
    ensures forall row: OutboxRow :: RowBounded(b, row, Count(rolled, o), o)
  {
    assert Live(b, o) == {};
  }

  lemma LivePublished(b: Stream, o: nat, id: EventId, p: nat)
    requires Valid(b)
    ensures Live(Enqueue(b, OwnEntry(id, o)), p) == if p == o then Live(b, p) + {b.nextId} else Live(b, p)
  {}

  /** What is known when a reconcile finds the recorded message of its next row gone. */
  ghost predicate Republishing(db: Db, b: Stream, recons: map<nat, Recon>, now: int, r: nat, o: nat) {
    && WellFormed(db) && MessagesValid(db, b, recons, now)
    && r in recons && o in db.outbox && !MessageLive(db.outbox[o], b)
    && !SentNow(recons, o) && forall t | t in recons :: o !in recons[t].marks
  }

  function Republished(rc: Recon, o: nat, k: Mark): Recon {
    rc.(marks := rc.marks[o := k], sent := rc.sent + {o})
  }

  lemma RepublishLive(db: Db, b: Stream, recons: map<nat, Recon>, rolled: map<nat, nat>, now: int, r: nat, o: nat)
    requires Republishing(db, b, recons, now, r, o) && DuplicatesBounded(db, b, recons, rolled)
    ensures var next := Enqueue(b, OwnEntry(db.outbox[o].eventId, o));
            && MarkBounded(next, db.outbox[o], Mark(now, b.nextId), Count(rolled, o), o)
            && LiveBounded(next, rolled)
  {
    var row := db.outbox[o];
    var next := Enqueue(b, OwnEntry(row.eventId, o));
    assert RowBounded(b, row, Count(rolled, o), o) && RowValid(b, now, o, row);
    assert Live(b, o) - RecordedMessage(row) == Live(b, o);
    forall p: nat
      ensures |Live(next, p)| <= 1 + Count(rolled, p)
    {
      LivePublished(b, o, row.eventId, p);
    }
    assert Live(next, o) - {b.nextId} == Live(b, o);
  }

  lemma StreamOf(db: Db, b: Stream, recons: map<nat, Recon>, now: int)
    requires MessagesValid(db, b, recons, now)
    ensures StreamValid(b, now)
  {}

  lemma RepublishRows(db: Db, b: Stream, recons: map<nat, Recon>, rolled: map<nat, nat>, now: int, r: nat, o: nat)
    requires Republishing(db, b, recons, now, r, o) && RowsBounded(db.outbox, b, recons, rolled)
    ensures RowsBounded(db.outbox, Enqueue(b, OwnEntry(db.outbox[o].eventId, o)),
                        recons[r := Republished(recons[r], o, Mark(now, b.nextId))], rolled)
  {
    hide Live, MessagesValid;
    var next := Enqueue(b, OwnEntry(db.outbox[o].eventId, o));
    var recons' := recons[r := Republished(recons[r], o, Mark(now, b.nextId))];
    assert Valid(b) by { StreamOf(db, b, recons, now); }
    assert o in recons'[r].sent;
    forall p | p in db.outbox && !SentNow(recons', p)
      ensures RowBounded(next, db.outbox[p], Count(rolled, p), p)
    {
      forall t | t in recons ensures p !in recons[t].sent {
        assert t in recons' && recons[t].sent <= recons'[t].sent;
      }
      assert RowBounded(b, db.outbox[p], Count(rolled, p), p);
      LivePublished(b, o, db.outbox[o].eventId, p);
    }
  }

  lemma RepublishOtherMarks(db: Db, b: Stream, recons: map<nat, Recon>, rolled: map<nat, nat>, now: int, r: nat, o: nat)
    requires Republishing(db, b, recons, now, r, o) && MarksBounded(db.outbox, b, recons, rolled)
    ensures MarksBounded(db.outbox - {o}, Enqueue(b, OwnEntry(db.outbox[o].eventId, o)),
                         recons[r := Republished(recons[r], o, Mark(now, b.nextId))], rolled)
  {
    hide Live, MessagesValid, MessageLive, RecordedMessage;
    var next := Enqueue(b, OwnEntry(db.outbox[o].eventId, o));
    var recons' := recons[r := Republished(recons[r], o, Mark(now, b.nextId))];
    assert Valid(b) by { StreamOf(db, b, recons, now); }
    forall t, p | t in recons' && p in recons'[t].marks && p in db.outbox && p != o
      ensures if p in recons'[t].sent then MarkBounded(next, db.outbox[p], recons'[t].marks[p], Count(rolled, p), p)
              else db.outbox[p].messageId == Some(recons'[t].marks[p].mid)
    {
      assert p in recons[t].marks && recons'[t].marks[p] == recons[t].marks[p];
      if p in recons'[t].sent {
        assert MarkBounded(b, db.outbox[p], recons[t].marks[p], Count(rolled, p), p);
        LivePublished(b, o, db.outbox[o].eventId, p);
        NotLiveStays(db, b, recons, now, p, OwnEntry(db.outbox[o].eventId, o));
      }
    }
  }

  /** Publishing again happens only when the recorded message is gone, so the new entry replaces it in the count. */
  lemma RepublishKeepsBounds(db: Db, b: Stream, recons: map<nat, Recon>, rolled: map<nat, nat>, now: int, r: nat,
                             o: nat)
    requires Republishing(db, b, recons, now, r, o) && DuplicatesBounded(db, b, recons, rolled)
    ensures DuplicatesBounded(db, Enqueue(b, OwnEntry(db.outbox[o].eventId, o)),
                              recons[r := Republished(recons[r], o, Mark(now, b.nextId))], rolled)
  {
    var next := Enqueue(b, OwnEntry(db.outbox[o].eventId, o));
    var recons' := recons[r := Republished(recons[r], o, Mark(now, b.nextId))];
    RepublishLive(db, b, recons, rolled, now, r, o);
    RepublishRows(db, b, recons, rolled, now, r, o);
    RepublishOtherMarks(db, b, recons, rolled, now, r, o);
    assert SourcesKnown(next, db.nextOutbox);
    assert forall t | t in recons' && o in recons'[t].marks :: t == r;
    hide Live, MarkBounded, RowsBounded, LiveBounded, MarksBounded, MessagesValid, SourcesKnown, Enqueue, Republishing;
    AllMarksBounded(db.outbox, next, recons', rolled, r, o);
  }

  lemma AllMarksBounded(outbox: map<nat, OutboxRow>, b: Stream, recons: map<nat, Recon>, rolled: map<nat, nat>,
                        r: nat, o: nat)
    requires MarksBounded(outbox - {o}, b, recons, rolled)
    requires r in recons && o in outbox && o in recons[r].marks && o in recons[r].sent
    requires forall t | t in recons && o in recons[t].marks :: t == r
    requires MarkBounded(b, outbox[o], recons[r].marks[o], Count(rolled, o), o)
    ensures MarksBounded(outbox, b, recons, rolled)
  {
    hide MarkBounded;
    assert forall p | p in outbox && p != o :: p in outbox - {o} && (outbox - {o})[p] == outbox[p];
  }

  lemma NotLiveStays(db: Db, b: Stream, recons: map<nat, Recon>, now: int, p: nat, e: Entry)
    requires MessagesValid(db, b, recons, now) && p in db.outbox && !MessageLive(db.outbox[p], b)
    ensures !MessageLive(db.outbox[p], Enqueue(b, e))
  {
    assert RowValid(b, now, p, db.outbox[p]);
  }

  lemma RefreshKeepsBounds(db: Db, b: Stream, recons: map<nat, Recon>, rolled: map<nat, nat>, r: nat, o: nat, k: Mark)
    requires DuplicatesBounded(db, b, recons, rolled) && r in recons && o in db.outbox
    requires o !in recons[r].sent && db.outbox[o].messageId == Some(k.mid)
    ensures DuplicatesBounded(db, b, recons[r := recons[r].(marks := recons[r].marks[o := k])], rolled)
  {
    var recons' := recons[r := recons[r].(marks := recons[r].marks[o := k])];
    forall p: nat ensures SentNow(recons', p) <==> SentNow(recons, p) {
      if t :| t in recons && p in recons[t].sent { assert p in recons'[t].sent; }
    }
  }

  /** The list of rows still to do plays no part in the bounds. */
  lemma TodoIrrelevant(db: Db, b: Stream, recons: map<nat, Recon>, rolled: map<nat, nat>, r: nat, todo: seq<nat>)
    requires DuplicatesBounded(db, b, recons, rolled) && r in recons
    ensures DuplicatesBounded(db, b, recons[r := recons[r].(todo := todo)], rolled)
  {
    var recons' := recons[r := recons[r].(todo := todo)];
    forall p: nat ensures SentNow(recons', p) <==> SentNow(recons, p) {
      if t :| t in recons && p in recons[t].sent { assert p in recons'[t].sent; }
    }
  }

  lemma AdvanceKeepsBounds(cfg: Config, s: Sys, r: nat)
    requires Enabled(cfg, s, Advance(r)) && WellFormed(s.db) && LocksValid(s.db, s.recons)
    requires MessagesValid(s.db, s.stream, s.recons, s.now)
    requires DuplicatesBounded(s.db, s.stream, s.recons, s.hist.rolled)
    ensures DuplicatesBounded(s.db, NextStream(cfg, s, Advance(r)), NextRecons(cfg, s, Advance(r)), s.hist.rolled)
  {
    hide DuplicatesBounded;
    var rc, b, recons := s.recons[r], NextStream(cfg, s, Advance(r)), NextRecons(cfg, s, Advance(r));
    var o := rc.todo[0];
    var row := s.db.outbox[o];
    UnsentWhileQueued(s, r);
    var k := Mark(s.now, if MessageLive(row, s.stream) then row.messageId.value else s.stream.nextId);
    var changed := if MessageLive(row, s.stream) then rc.(marks := rc.marks[o := k]) else Republished(rc, o, k);
    if MessageLive(row, s.stream) {
      RefreshKeepsBounds(s.db, s.stream, s.recons, s.hist.rolled, r, o, k);
    } else {
      RepublishKeepsBounds(s.db, s.stream, s.recons, s.hist.rolled, s.now, r, o);
    }
    TodoIrrelevant(s.db, b, s.recons[r := changed], s.hist.rolled, r, rc.todo[1..]);
    assert s.recons[r := changed][r := changed.(todo := rc.todo[1..])] == recons;
  }

  lemma UnsentWhileQueued(s: Sys, r: nat)
    requires LocksValid(s.db, s.recons) && r in s.recons && s.recons[r].todo != []
    ensures !SentNow(s.recons, s.recons[r].todo[0])
    ensures forall t | t in s.recons :: s.recons[r].todo[0] !in s.recons[t].marks
  {
    var o := s.recons[r].todo[0];
    assert ReconValid(s.recons[r]) && o in Locked(s.recons[r]);
    forall t | t in s.recons
      ensures o !in s.recons[t].sent && o !in s.recons[t].marks
    {
      assert ReconValid(s.recons[t]) && s.recons[t].marks.Keys <= Locked(s.recons[t]);
    }
  }

  lemma CommitRows(s: Sys, r: nat, deleted: set<nat>)
    requires LocksValid(s.db, s.recons) && r in s.recons
    requires RowsBounded(s.db.outbox, s.stream, s.recons, s.hist.rolled)
    requires MarksBounded(s.db.outbox, s.stream, s.recons, s.hist.rolled)
    ensures RowsBounded(CommitOutbox(s.db.outbox, s.recons[r].marks, deleted), s.stream, s.recons - {r}, s.hist.rolled)
  {
    hide Live;
    var outbox, recons, rolled := s.db.outbox, s.recons - {r}, s.hist.rolled;
    var next := CommitOutbox(outbox, s.recons[r].marks, deleted);
    forall o | o in next && !SentNow(recons, o)
      ensures RowBounded(s.stream, next[o], Count(rolled, o), o)
    {
      if o in s.recons[r].sent {
        assert ReconValid(s.recons[r]);
        assert MarkBounded(s.stream, outbox[o], s.recons[r].marks[o], Count(rolled, o), o);
      } else {
        forall t | t in s.recons ensures o !in s.recons[t].sent {
          assert t != r ==> t in recons;
        }
        assert RowBounded(s.stream, outbox[o], Count(rolled, o), o);
      }
    }
  }

  lemma CommitMarks(s: Sys, r: nat, deleted: set<nat>)
    requires LocksValid(s.db, s.recons) && r in s.recons
    requires MarksBounded(s.db.outbox, s.stream, s.recons, s.hist.rolled)
    ensures MarksBounded(CommitOutbox(s.db.outbox, s.recons[r].marks, deleted), s.stream, s.recons - {r}, s.hist.rolled)
  {
    hide MarkBounded;
    var next := CommitOutbox(s.db.outbox, s.recons[r].marks, deleted);
    forall t, o | t in s.recons && t != r && o in s.recons[t].marks && o in next
      ensures next[o] == s.db.outbox[o]
    {
      assert o in Locked(s.recons[t]);
      assert s.recons[r].marks.Keys <= Locked(s.recons[r]);
    }
  }

  /** Committing makes each mark the recorded message. */
  lemma CommitKeepsBounds(cfg: Config, s: Sys, r: nat, deleted: set<nat>)
    requires Enabled(cfg, s, Commit(r, deleted)) && LocksValid(s.db, s.recons)
    requires DuplicatesBounded(s.db, s.stream, s.recons, s.hist.rolled)
    ensures DuplicatesBounded(NextDb(cfg, s, Commit(r, deleted)), s.stream, s.recons - {r}, s.hist.rolled)
  {
    CommitRows(s, r, deleted);
    CommitMarks(s, r, deleted);
    hide RowsBounded, MarksBounded, LiveBounded, SourcesKnown;
  }

  lemma RolledMore(cfg: Config, s: Sys, r: nat, o: nat)
    requires r in s.recons
    ensures Count(NextRolled(cfg, s, Rollback(r)), o)
         == Count(s.hist.rolled, o) + (if o in s.recons[r].sent then 1 else 0)
  {}

  /** A rollback forgets the marks, and raises the allowance of every row it had published. */
  lemma RollbackKeepsBounds(cfg: Config, s: Sys, r: nat)
    requires Enabled(cfg, s, Rollback(r))
    requires DuplicatesBounded(s.db, s.stream, s.recons, s.hist.rolled)
    ensures DuplicatesBounded(s.db, s.stream, s.recons - {r}, NextRolled(cfg, s, Rollback(r)))
  {
    hide Live, NextRolled;
    var recons, rolled := s.recons - {r}, NextRolled(cfg, s, Rollback(r));
    forall o: nat ensures Count(s.hist.rolled, o) <= Count(rolled, o) { RolledMore(cfg, s, r, o); }
    forall o | o in s.db.outbox && !SentNow(recons, o)
      ensures RowBounded(s.stream, s.db.outbox[o], Count(rolled, o), o)
    {
      if o in s.recons[r].sent {
        RolledMore(cfg, s, r, o);
        SubsetSize(Live(s.stream, o) - RecordedMessage(s.db.outbox[o]), Live(s.stream, o));
      } else {
        forall t | t in s.recons ensures o !in s.recons[t].sent {
          assert t != r ==> t in recons;
        }
        assert RowBounded(s.stream, s.db.outbox[o], Count(s.hist.rolled, o), o);
      }
    }
  }

  lemma HoldingsKept(cfg: Config, s: Sys, step: Step)
    requires Enabled(cfg, s, step) && LocksValid(s.db, s.recons)
    requires !step.Advance? && !step.Commit? && !step.Rollback?
    ensures var recons := NextRecons(cfg, s, step);
            && (forall r | r in s.recons ::
                  && r in recons && recons[r].marks == s.recons[r].marks && recons[r].sent == s.recons[r].sent
                  && s.recons[r].marks.Keys <= s.db.outbox.Keys)
            && (forall r | r in recons && r !in s.recons :: recons[r].marks == map[] && recons[r].sent == {})
  {
    assert forall r | r in s.recons :: s.recons[r].marks.Keys <= Locked(s.recons[r]);
    hide Locked, LocksValid, ReconValid, ClaimUnpublished, ExpiredRows, AllLocked;
  }

  lemma OthersKeepBounds(cfg: Config, s: Sys, step: Step)
    requires Enabled(cfg, s, step) && WellFormed(s.db) && LocksValid(s.db, s.recons)
    requires MessagesValid(s.db, s.stream, s.recons, s.now)
    requires DuplicatesBounded(s.db, s.stream, s.recons, s.hist.rolled)
    requires !step.Advance? && !step.Commit? && !step.Rollback?
    ensures DuplicatesBounded(NextDb(cfg, s, step), NextStream(cfg, s, step), NextRecons(cfg, s, step), s.hist.rolled)
  {
    hide NextDb, NextRecons, NextStream, DuplicatesBounded, MessagesValid;
    OutboxStep(cfg, s, step);
    HoldingsKept(cfg, s, step);
    var db, recons := NextDb(cfg, s, step), NextRecons(cfg, s, step);
    TablesKeepBounds(s.db, s.stream, s.recons, s.hist.rolled, db, recons);
    MessagesValidForTables(cfg, s, step);
    assert StreamValid(s.stream, s.now) by { StreamOf(s.db, s.stream, s.recons, s.now); }
    PublishedStep(cfg, s, step);
    ShrinkingKeepsBounds(db, s.stream, recons, s.hist.rolled, s.now, NextStream(cfg, s, step));
  }

  lemma MessagesValidForTables(cfg: Config, s: Sys, step: Step)
    requires Enabled(cfg, s, step) && WellFormed(s.db) && LocksValid(s.db, s.recons)
    requires MessagesValid(s.db, s.stream, s.recons, s.now)
    requires !step.Advance? && !step.Commit? && !step.Rollback?
    ensures MessagesValid(NextDb(cfg, s, step), s.stream, NextRecons(cfg, s, step), s.now)
  {
    OutboxStep(cfg, s, step);
    if step.Claim? {
      ClaimKeepsMessages(cfg, s, step.r, step.skipped);
    } else {
      ReconStep(cfg, s, step);
      RecordsCarryOver(s.db, s.recons, s.stream, s.now, NextDb(cfg, s, step), NextRecons(cfg, s, step));
    }
  }

  lemma DuplicatesBoundedStep(cfg: Config, s: Sys, step: Step)
    requires Enabled(cfg, s, step) && WellFormed(s.db) && LocksValid(s.db, s.recons)
    requires MessagesValid(s.db, s.stream, s.recons, s.now)
    requires DuplicatesBounded(s.db, s.stream, s.recons, s.hist.rolled)
    ensures DuplicatesBounded(NextDb(cfg, s, step), NextStream(cfg, s, step), NextRecons(cfg, s, step),
                              NextRolled(cfg, s, step))
  {
    hide DuplicatesBounded, MessagesValid, LocksValid;
    match step
    case Advance(r) => AdvanceKeepsBounds(cfg, s, r);
    case Commit(r, deleted) => CommitKeepsBounds(cfg, s, r, deleted);
    case Rollback(r) => RollbackKeepsBounds(cfg, s, r);
    case _ => OthersKeepBounds(cfg, s, step);
  }
}
