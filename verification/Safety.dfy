/** What every reachable state of the pipeline keeps. */
module Safety {
  import opened Types
  import opened Scoring
  import opened Database
  import opened Broker
  import opened Pipeline

  // ---------- Zero loss ----------

  predicate Doomed(recons: map<nat, Recon>, o: nat) {
    exists r :: r in recons && o in recons[r].doomed
  }

  ghost predicate SafeRow(db: Db, recons: map<nat, Recon>, id: EventId, o: nat) {
    o in db.outbox && db.outbox[o].eventId == id && !Doomed(recons, o)
  }

  /** Every pending event has an outbox row that no cleanup in flight is going to delete. */
  ghost predicate NothingLost(db: Db, recons: map<nat, Recon>) {
    && (forall r, o | r in recons && o in recons[r].doomed :: o < db.nextOutbox)
    && (forall id | IsPending(db, id) :: exists o :: SafeRow(db, recons, id, o))
  }

  // ---------- Row locks of reconcile transactions ----------

  predicate ReconValid(rc: Recon) {
    && (forall i, j | 0 <= i < j < |rc.todo| :: rc.todo[i] != rc.todo[j])
    && (forall o | o in rc.todo :: o !in rc.marks)
    && rc.sent <= rc.marks.Keys
    && (rc.decided ==> rc.todo == [])
    && (!rc.decided ==> rc.doomed == {})
  }

  ghost predicate LocksValid(db: Db, recons: map<nat, Recon>) {
    && (forall r | r in recons :: ReconValid(recons[r]) && Locked(recons[r]) <= db.outbox.Keys)
    && (forall r, s | r in recons && s in recons && r != s :: Locked(recons[r]) !! Locked(recons[s]))
  }

  // ---------- Times and message ids ----------

  /** A recorded message that is still in the stream is the row's own. */
  predicate OwnMessage(b: Stream, mid: nat, id: EventId, o: nat) {
    mid < b.nextId && (mid in b.entries ==> b.entries[mid] == OwnEntry(id, o))
  }

  predicate RowValid(b: Stream, now: int, o: nat, row: OutboxRow) {
    match row.publishedAt
    case None => row.messageId.None?
    case Some(at) => at <= now && row.messageId.Some? && OwnMessage(b, row.messageId.value, row.eventId, o)
  }

  predicate MarkValid(b: Stream, now: int, o: nat, id: EventId, k: Mark) {
    k.at <= now && OwnMessage(b, k.mid, id, o)
  }

  ghost predicate RowsValid(outbox: map<nat, OutboxRow>, b: Stream, now: int) {
    forall o | o in outbox :: RowValid(b, now, o, outbox[o])
  }

  ghost predicate MarksValid(outbox: map<nat, OutboxRow>, recons: map<nat, Recon>, b: Stream, now: int) {
    forall r, o | r in recons && o in recons[r].marks && o in outbox ::
      MarkValid(b, now, o, outbox[o].eventId, recons[r].marks[o])
  }

  ghost predicate StreamValid(b: Stream, now: int) {
    Valid(b) && forall m | m in b.pel :: b.pel[m] <= now
  }

  ghost predicate MessagesValid(db: Db, b: Stream, recons: map<nat, Recon>, now: int) {
    StreamValid(b, now) && RowsValid(db.outbox, b, now) && MarksValid(db.outbox, recons, b, now)
  }

  /** Ids are not reused: whatever is in the stream under an old id was there before, unchanged. */
  ghost predicate Follows(b: Stream, next: Stream) {
    && b.nextId <= next.nextId
    && forall m | m in next.entries && m < b.nextId :: m in b.entries && next.entries[m] == b.entries[m]
  }

  lemma ClaimKeepsLocks(cfg: Config, s: Sys, r: nat, skipped: set<nat>)
    requires Enabled(cfg, s, Claim(r, skipped)) && WellFormed(s.db) && LocksValid(s.db, s.recons)
    ensures LocksValid(NextDb(cfg, s, Claim(r, skipped)), NextRecons(cfg, s, Claim(r, skipped)))
  {
    hide Claimable, ClaimUnpublished;
    var locked := AllLocked(s.recons) + skipped;
    var claim := ClaimUnpublished(s.db, s.now, locked, cfg.limit);
    ClaimIsOldestFirst(s.db, s.now, locked, cfg.limit);
    ClaimedRows(s.db, s.now, locked, cfg.limit);
    forall t, o | t in s.recons && o in Locked(s.recons[t])
      ensures o !in claim
    {
      assert o in AllLocked(s.recons);
    }
  }

  lemma ClaimedRows(db: Db, now: int, locked: set<nat>, limit: nat)
    requires WellFormed(db)
    ensures forall o | o in ClaimUnpublished(db, now, locked, limit) :: o in db.outbox && o !in locked
  {
    ClaimIsOldestFirst(db, now, locked, limit);
  }

  lemma CommitKeepsLocks(cfg: Config, s: Sys, r: nat, deleted: set<nat>)
    requires Enabled(cfg, s, Commit(r, deleted)) && LocksValid(s.db, s.recons)
    ensures LocksValid(NextDb(cfg, s, Commit(r, deleted)), NextRecons(cfg, s, Commit(r, deleted)))
  {
    forall t, o | t in s.recons && t != r && o in Locked(s.recons[t])
      ensures o !in deleted
    {
      assert t in s.recons - {r};
      assert o in AllLocked(s.recons - {r});
    }
  }

  lemma AdvanceKeepsLocks(cfg: Config, s: Sys, r: nat)
    requires Enabled(cfg, s, Advance(r)) && LocksValid(s.db, s.recons)
    ensures LocksValid(NextDb(cfg, s, Advance(r)), NextRecons(cfg, s, Advance(r)))
  {
    var rc, next := s.recons[r], NextRecons(cfg, s, Advance(r))[r];
    AdvancedHoldsSame(rc, next, rc.todo[0]);
    hide Locked, ReconValid, Advanced;
  }

  lemma AdvancedHoldsSame(rc: Recon, next: Recon, o: nat)
    requires ReconValid(rc) && rc.todo != [] && o == rc.todo[0] && next.todo == rc.todo[1..]
    requires next.marks.Keys == rc.marks.Keys + {o} && rc.sent <= next.sent <= rc.sent + {o}
    requires next.doomed == rc.doomed && next.decided == rc.decided
    ensures ReconValid(next) && Locked(next) == Locked(rc)
  {
    assert rc.todo == [o] + next.todo;
    assert forall i | 0 <= i < |next.todo| :: next.todo[i] == rc.todo[i + 1];
  }

  /** The outbox has gained unpublished rows at most. */
  ghost predicate OutboxExtends(db: Db, next: Db) {
    && db.nextOutbox <= next.nextOutbox
    && (forall o | o in db.outbox :: o in next.outbox && next.outbox[o] == db.outbox[o])
    && (forall o | o in next.outbox && o !in db.outbox ::
          o == db.nextOutbox && next.outbox[o].publishedAt == None && next.outbox[o].messageId == None)
  }

  ghost predicate Subset(recons: map<nat, Recon>, next: map<nat, Recon>) {
    forall r | r in next ::
        r in recons && next[r].todo == recons[r].todo && next[r].marks == recons[r].marks
            && next[r].sent == recons[r].sent
  }

  /** Only a reconcile's commit rewrites or deletes outbox rows. */
  lemma OutboxStep(cfg: Config, s: Sys, step: Step)
    requires Enabled(cfg, s, step) && WellFormed(s.db) && !step.Commit?
    ensures OutboxExtends(s.db, NextDb(cfg, s, step))
  {
    hide Absorb, Touch;
  }

  /** Only a reconcile's own claim and its next row change what it holds. */
  lemma ReconStep(cfg: Config, s: Sys, step: Step)
    requires Enabled(cfg, s, step) && !step.Claim? && !step.Advance?
    ensures Subset(s.recons, NextRecons(cfg, s, step))
    ensures (forall r | r in s.recons :: ReconValid(s.recons[r])) ==>
              forall r | r in NextRecons(cfg, s, step) :: ReconValid(NextRecons(cfg, s, step)[r])
  {}

  lemma LocksCarryOver(db: Db, recons: map<nat, Recon>, nextDb: Db, next: map<nat, Recon>)
    requires LocksValid(db, recons) && OutboxExtends(db, nextDb) && Subset(recons, next)
    requires forall r | r in next :: ReconValid(next[r])
    ensures LocksValid(nextDb, next)
  {
    assert forall r | r in next :: Locked(next[r]) == Locked(recons[r]);
  }

  lemma OtherKeepsLocks(cfg: Config, s: Sys, step: Step)
    requires Enabled(cfg, s, step) && WellFormed(s.db) && LocksValid(s.db, s.recons)
    requires !step.Claim? && !step.Advance? && !step.Commit?
    ensures LocksValid(NextDb(cfg, s, step), NextRecons(cfg, s, step))
  {
    hide NextDb, NextRecons, Enabled;
    OutboxStep(cfg, s, step);
    ReconStep(cfg, s, step);
    LocksCarryOver(s.db, s.recons, NextDb(cfg, s, step), NextRecons(cfg, s, step));
  }

  lemma LocksValidStep(cfg: Config, s: Sys, step: Step)
    requires Enabled(cfg, s, step) && WellFormed(s.db) && LocksValid(s.db, s.recons)
    ensures LocksValid(NextDb(cfg, s, step), NextRecons(cfg, s, step))
  {
    hide NextDb, NextRecons, LocksValid, WellFormed, Enabled;
    match step
    case Claim(r, skipped) => ClaimKeepsLocks(cfg, s, r, skipped);
    case Commit(r, deleted) => CommitKeepsLocks(cfg, s, r, deleted);
    case Advance(r) => AdvanceKeepsLocks(cfg, s, r);
    case _ => OtherKeepsLocks(cfg, s, step);
  }

  /** A cleanup's snapshot takes expired rows only, and its commit takes nothing outside that snapshot. */
  lemma CleanupLosesNothing(cfg: Config, s: Sys, step: Step, id: EventId, o: nat)
    requires Enabled(cfg, s, step) && SafeRow(s.db, s.recons, id, o) && IsPending(s.db, id)
    requires step.Commit? || step.Snapshot?
    ensures SafeRow(NextDb(cfg, s, step), NextRecons(cfg, s, step), id, o)
  {}

  /** No other step dooms or rewrites a row. */
  lemma OthersLoseNothing(cfg: Config, s: Sys, step: Step, id: EventId, o: nat)
    requires Enabled(cfg, s, step) && WellFormed(s.db) && SafeRow(s.db, s.recons, id, o)
    requires !step.Commit? && !step.Snapshot?
    ensures SafeRow(NextDb(cfg, s, step), NextRecons(cfg, s, step), id, o)
  {
    OutboxStep(cfg, s, step);
    hide NextDb;
    var recons := NextRecons(cfg, s, step);
    forall r | r in recons
      ensures o !in recons[r].doomed
    {
      assert r in s.recons ==> o !in s.recons[r].doomed;
    }
  }

  /** Whatever turns an event pending writes it a new outbox row. */
  lemma NewlyPendingHasRow(cfg: Config, s: Sys, step: Step, id: EventId)
    requires Enabled(cfg, s, step) && WellFormed(s.db) && NothingLost(s.db, s.recons)
    requires !IsPending(s.db, id) && IsPending(NextDb(cfg, s, step), id)
    ensures SafeRow(NextDb(cfg, s, step), NextRecons(cfg, s, step), id, s.db.nextOutbox)
  {
    hide Absorb, Touch;
  }

  lemma DoomedKnown(cfg: Config, s: Sys, step: Step)
    requires Enabled(cfg, s, step) && WellFormed(s.db) && NothingLost(s.db, s.recons)
    ensures var db, recons := NextDb(cfg, s, step), NextRecons(cfg, s, step);
            forall r, o | r in recons && o in recons[r].doomed :: o < db.nextOutbox
  {
    hide IsPending;
    assert s.db.nextOutbox <= NextDb(cfg, s, step).nextOutbox;
    hide NextDb;
  }

  lemma NothingLostStep(cfg: Config, s: Sys, step: Step)
    requires Enabled(cfg, s, step) && WellFormed(s.db) && NothingLost(s.db, s.recons)
    ensures NothingLost(NextDb(cfg, s, step), NextRecons(cfg, s, step))
  {
    hide NextDb, NextRecons, SafeRow, IsPending, Enabled, WellFormed;
    DoomedKnown(cfg, s, step);
    var db, recons := NextDb(cfg, s, step), NextRecons(cfg, s, step);
    forall id | IsPending(db, id)
      ensures exists o :: SafeRow(db, recons, id, o)
    {
      if IsPending(s.db, id) {
        var o :| SafeRow(s.db, s.recons, id, o);
        if step.Commit? || step.Snapshot? {
          CleanupLosesNothing(cfg, s, step, id, o);
        } else {
          OthersLoseNothing(cfg, s, step, id, o);
        }
      } else {
        NewlyPendingHasRow(cfg, s, step, id);
      }
    }
  }

  lemma StreamStep(cfg: Config, s: Sys, step: Step)
    requires Enabled(cfg, s, step) && StreamValid(s.stream, s.now)
    ensures Follows(s.stream, NextStream(cfg, s, step))
    ensures StreamValid(NextStream(cfg, s, step), s.now)
  {
    hide UndeliveredBelow, Database.Claimable;
    if step.Read? {
      DeliverValid(s.stream, step.n, s.now);
    }
  }

  /** Time passes and the stream moves on: what the outbox and the open transactions recorded stays theirs. */
  lemma RecordsStayValid(db: Db, recons: map<nat, Recon>, b: Stream, now: int, next: Stream, later: int)
    requires MessagesValid(db, b, recons, now) && Follows(b, next) && StreamValid(next, later) && now <= later
    ensures MessagesValid(db, next, recons, later)
  {}

  lemma CommitKeepsMessages(cfg: Config, s: Sys, r: nat, deleted: set<nat>)
    requires Enabled(cfg, s, Commit(r, deleted))
    requires MessagesValid(s.db, s.stream, s.recons, s.now)
    ensures MessagesValid(NextDb(cfg, s, Commit(r, deleted)), NextStream(cfg, s, Commit(r, deleted)),
        s.recons - {r}, s.now)
  {}

  lemma AdvanceKeepsMessages(cfg: Config, s: Sys, r: nat)
    requires Enabled(cfg, s, Advance(r)) && MessagesValid(s.db, s.stream, s.recons, s.now)
    ensures MessagesValid(s.db, NextStream(cfg, s, Advance(r)), NextRecons(cfg, s, Advance(r)), s.now)
  {
    StreamStep(cfg, s, Advance(r));
    var b := NextStream(cfg, s, Advance(r));
    RecordsStayValid(s.db, s.recons, s.stream, s.now, b, s.now);
    var o := s.recons[r].todo[0];
    var row := s.db.outbox[o];
    assert RowValid(s.stream, s.now, o, row);
    assert MarkValid(b, s.now, o, row.eventId, NextRecons(cfg, s, Advance(r))[r].marks[o]);
    hide MarkValid, NextStream, RowValid;
  }

  lemma RecordsCarryOver(db: Db, recons: map<nat, Recon>, b: Stream, now: int, nextDb: Db, next: map<nat, Recon>)
    requires MessagesValid(db, b, recons, now) && OutboxExtends(db, nextDb)
    requires Subset(recons, next) && forall r | r in recons :: recons[r].marks.Keys <= db.outbox.Keys
    ensures MessagesValid(nextDb, b, next, now)
  {}

  lemma ClaimKeepsMessages(cfg: Config, s: Sys, r: nat, skipped: set<nat>)
    requires Enabled(cfg, s, Claim(r, skipped)) && MessagesValid(s.db, s.stream, s.recons, s.now)
    ensures MessagesValid(s.db, s.stream, NextRecons(cfg, s, Claim(r, skipped)), s.now)
  {}

  lemma OtherKeepsMessages(cfg: Config, s: Sys, step: Step)
    requires Enabled(cfg, s, step) && WellFormed(s.db) && LocksValid(s.db, s.recons)
    requires MessagesValid(s.db, s.stream, s.recons, s.now)
    requires !step.Commit? && !step.Advance? && !step.Claim?
    ensures var t := Next(cfg, s, step); MessagesValid(t.db, t.stream, t.recons, t.now)
  {
    var t := Next(cfg, s, step);
    OutboxStep(cfg, s, step);
    ReconStep(cfg, s, step);
    RecordsCarryOver(s.db, s.recons, s.stream, s.now, t.db, t.recons);
    StreamStep(cfg, s, step);
    assert StreamValid(t.stream, t.now);
    hide NextDb, NextStream, NextRecons, NextTasks, NextHistory, MessagesValid;
    RecordsStayValid(t.db, t.recons, s.stream, s.now, t.stream, t.now);
  }

  lemma MessagesValidStep(cfg: Config, s: Sys, step: Step)
    requires Enabled(cfg, s, step) && WellFormed(s.db) && LocksValid(s.db, s.recons)
    requires MessagesValid(s.db, s.stream, s.recons, s.now)
    ensures var t := Next(cfg, s, step); MessagesValid(t.db, t.stream, t.recons, t.now)
  {
    hide MessagesValid, NextTasks, NextHistory;
    match step
    case Commit(r, deleted) => CommitKeepsMessages(cfg, s, r, deleted);
    case Advance(r) => AdvanceKeepsMessages(cfg, s, r);
    case Claim(r, skipped) => ClaimKeepsMessages(cfg, s, r, skipped);
    case _ => OtherKeepsMessages(cfg, s, step);
  }
}
