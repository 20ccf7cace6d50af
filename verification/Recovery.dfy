/**
 * What brings a pending event back: its newest outbox row is unpublished, or its recorded message is in the stream
 * exactly if no loss of Redis has come after that message.
 */
module Recovery {
  import opened Types
  import opened Scoring
  import opened Database
  import opened Broker
  import opened Pipeline
  import opened Safety
  import opened Accounting
  import opened Ingestion
  import opened Runs

  /** Row `o` is the newest row ever written for its event, and the event is pending. */
  ghost predicate Current(db: Db, created: map<nat, EventId>, o: nat) {
    && o in created && IsPending(db, created[o])
    && forall p | p in created && created[p] == created[o] :: p <= o
  }

  ghost predicate RowsKnown(db: Db, created: map<nat, EventId>) {
    forall o | o in created :: created[o] in db.events
  }

  /** Entries of the pipeline's own are exactly what publishing their row writes; none is older than the last loss. */
  ghost predicate EntriesKnown(b: Stream, created: map<nat, EventId>, lost: nat) {
    && lost <= b.nextId && (forall m | m in b.entries :: lost <= m)
    && forall m | m in b.entries && b.entries[m].source.Some? ::
         var o := b.entries[m].source.value;
         o in created && b.entries[m] == OwnEntry(created[o], o)
  }

  /** A worker's message is what its entry says, as long as the entry is there. */
  predicate MessageTrue(b: Stream, msg: Msg) {
    && msg.mid < b.nextId
    && (msg.mid in b.entries ==> msg.payload == Decode(msg.mid, b.entries[msg.mid].raw))
  }

  ghost predicate TasksTrue(b: Stream, tasks: map<nat, Task>) {
    forall w, msg | w in tasks && msg in tasks[w].msgs :: MessageTrue(b, msg)
  }

  predicate Decided(t: Task) {
    t.msgs != [] && (t.blind || t.handled)
  }

  /** `mid` is in the stream, published from row `o`. */
  predicate FromRow(b: Stream, mid: nat, o: nat) {
    mid in b.entries && b.entries[mid].source == Some(o)
  }

  /** A message a worker is done with is not from the newest row of a pending event. */
  ghost predicate DecidedNotCurrent(db: Db, b: Stream, tasks: map<nat, Task>, created: map<nat, EventId>) {
    forall w, o | w in tasks && Decided(tasks[w]) && FromRow(b, tasks[w].msgs[0].mid, o) :: !Current(db, created, o)
  }

  /** A message id held for a pending event's newest row is in the stream, unless Redis has been lost since. */
  ghost predicate StillThere(db: Db, b: Stream, created: map<nat, EventId>, lost: nat, o: nat, mid: nat) {
    Current(db, created, o) && lost <= mid ==> mid in b.entries
  }

  ghost predicate RecordedThere(db: Db, b: Stream, created: map<nat, EventId>, lost: nat) {
    forall o | o in db.outbox && db.outbox[o].messageId.Some? ::
      StillThere(db, b, created, lost, o, db.outbox[o].messageId.value)
  }

  ghost predicate MarkedThere(db: Db, b: Stream, recons: map<nat, Recon>, created: map<nat, EventId>, lost: nat) {
    forall r, o | r in recons && o in recons[r].marks :: StillThere(db, b, created, lost, o, recons[r].marks[o].mid)
  }

  ghost predicate CurrentRowOf(db: Db, recons: map<nat, Recon>, created: map<nat, EventId>, id: EventId, o: nat) {
    Current(db, created, o) && created[o] == id && o in db.outbox && !Doomed(recons, o)
  }

  /** The newest row of a pending event is there, and no cleanup under way will take it. */
  ghost predicate CurrentSafe(db: Db, recons: map<nat, Recon>, created: map<nat, EventId>) {
    forall id | IsPending(db, id) :: exists o :: CurrentRowOf(db, recons, created, id, o)
  }

  ghost predicate Recoverable(s: Sys) {
    && RowsKnown(s.db, s.hist.created)
    && EntriesKnown(s.stream, s.hist.created, s.hist.lost)
    && TasksTrue(s.stream, s.tasks)
    && DecidedNotCurrent(s.db, s.stream, s.tasks, s.hist.created)
    && RecordedThere(s.db, s.stream, s.hist.created, s.hist.lost)
    && MarkedThere(s.db, s.stream, s.recons, s.hist.created, s.hist.lost)
    && CurrentSafe(s.db, s.recons, s.hist.created)
  }

  // ---------- Which rows become current ----------

  ghost predicate Raised(db: Db, next: Db, id: EventId) {
    !IsPending(db, id) && IsPending(next, id)
  }

  /** A step writes a row exactly for an event that it makes pending. */
  ghost predicate RowPerRaise(db: Db, created: map<nat, EventId>, next: Db, created': map<nat, EventId>) {
    && (forall id | Raised(db, next, id) :: created' == created[db.nextOutbox := id])
    && (created' == created || exists id :: created' == created[db.nextOutbox := id] && Raised(db, next, id))
  }

  lemma IngestRaises(db: Db, created: map<nat, EventId>, body: EventIn, now: int)
    requires WellFormed(db) && forall o | o in db.outbox :: o in created && created[o] == db.outbox[o].eventId
    requires forall o | o in created :: o < db.nextOutbox
    ensures var next := PersistOne(db, body, now); RowPerRaise(db, created, next, Recorded(created, next.outbox))
  {
    var next := PersistOne(db, body, now);
    OneEvent(db, body, now);
    hide PersistOne, Recorded;
    if body.eventId in db.events {
      RecordedSame(created, db.outbox);
    } else {
      RecordedNew(created, db.outbox, db.nextOutbox, OutboxRow(body.eventId, now, None, None), body.eventId);
      assert Raised(db, next, body.eventId);
    }
  }

  lemma ReplayRaises(db: Db, created: map<nat, EventId>, d: nat, now: int)
    requires WellFormed(db) && forall o | o in db.outbox :: o in created && created[o] == db.outbox[o].eventId
    requires forall o | o in created :: o < db.nextOutbox
    ensures var next := Replay(db, d, now); RowPerRaise(db, created, next, Recorded(created, next.outbox))
  {
    var next := Replay(db, d, now);
    if ReplayOutcomeOf(db, d) == ReplayOutcome.Requeued {
      var id := db.dlq[d].eventId;
      RecordedNew(created, db.outbox, db.nextOutbox, OutboxRow(id, now, None, None), id);
      assert Raised(db, next, id);
    } else {
      RecordedSame(created, next.outbox);
    }
  }

  lemma OthersRaiseNothing(cfg: Config, s: Sys, step: Step)
    requires Enabled(cfg, s, step) && !step.Ingest? && !step.Replayed?
    ensures forall id :: !Raised(s.db, NextDb(cfg, s, step), id)
  {}

  lemma RaiseStep(cfg: Config, s: Sys, step: Step)
    requires Enabled(cfg, s, step) && WellFormed(s.db) && HistoryValid(s.db, s.hist.filed, s.hist.created)
    ensures RowPerRaise(s.db, s.hist.created, NextDb(cfg, s, step), NextHistory(cfg, s, step).created)
  {
    hide RowPerRaise, PersistOne, Replay, Recorded;
    match step
    case Ingest(body) => IngestRaises(s.db, s.hist.created, body, s.now);
    case Replayed(d) => ReplayRaises(s.db, s.hist.created, d, s.now);
    case _ => {
      OthersRaiseNothing(cfg, s, step);
      NoNewRows(cfg, s, step);
      NothingRaised(s.db, s.hist.created, NextDb(cfg, s, step));
    }
  }

  lemma NothingRaised(db: Db, created: map<nat, EventId>, next: Db)
    requires forall id :: !Raised(db, next, id)
    ensures RowPerRaise(db, created, next, created)
  {}

  lemma NotRaised(db: Db, created: map<nat, EventId>, next: Db, created': map<nat, EventId>, o: nat)
    requires RowPerRaise(db, created, next, created') && forall p | p in created :: p < db.nextOutbox
    requires Current(next, created', o)
    ensures o in created ==> !Raised(db, next, created[o])
  {
    var n: nat := db.nextOutbox;
    assert n in created' && created'[n] == created'[o] ==> n <= o;
  }

  /** A row that is current after a step was current before, or has just been written. */
  lemma CurrentBefore(db: Db, created: map<nat, EventId>, next: Db, created': map<nat, EventId>, o: nat)
    requires RowPerRaise(db, created, next, created') && forall p | p in created :: p < db.nextOutbox
    requires Current(next, created', o)
    ensures o in created ==> Current(db, created, o)
    ensures o !in created ==> o == db.nextOutbox
  {
    assert forall p | p in created :: p in created' && created'[p] == created[p];
    NotRaised(db, created, next, created', o);
  }

  /** A current row whose event stays pending stays current. */
  lemma CurrentAfter(db: Db, created: map<nat, EventId>, next: Db, created': map<nat, EventId>, o: nat)
    requires RowPerRaise(db, created, next, created') && forall p | p in created :: p < db.nextOutbox
    requires Current(db, created, o) && IsPending(next, created[o])
    ensures Current(next, created', o) && created'[o] == created[o]
  {}

  // ---------- The invariant, part by part ----------

  lemma RowsKnownStep(cfg: Config, s: Sys, step: Step)
    requires Enabled(cfg, s, step) && RowsKnown(s.db, s.hist.created)
    requires RowPerRaise(s.db, s.hist.created, NextDb(cfg, s, step), NextHistory(cfg, s, step).created)
    ensures RowsKnown(NextDb(cfg, s, step), NextHistory(cfg, s, step).created)
  {
    LaterStep(cfg, s, step);
    hide NextDb, NextHistory;
  }

  lemma EntriesKnownStep(cfg: Config, s: Sys, step: Step)
    requires Enabled(cfg, s, step) && EntriesKnown(s.stream, s.hist.created, s.hist.lost)
    requires HistoryValid(s.db, s.hist.filed, s.hist.created)
    requires RowPerRaise(s.db, s.hist.created, NextDb(cfg, s, step), NextHistory(cfg, s, step).created)
    ensures EntriesKnown(NextStream(cfg, s, step), NextHistory(cfg, s, step).created, NextHistory(cfg, s, step).lost)
  {
    hide NextDb, UndeliveredBelow, Recorded, NextFiled, NextRolled;
  }

  lemma DecodedTrue(b: Stream, ids: seq<nat>)
    requires Valid(b) && forall i | 0 <= i < |ids| :: ids[i] in b.entries
    ensures forall msg | msg in DecodeAll(b, ids) :: MessageTrue(b, msg)
  {
    hide Decode;
  }

  lemma MessagesStayTrue(b: Stream, tasks: map<nat, Task>, next: Stream)
    requires TasksTrue(b, tasks) && Follows(b, next)
    ensures TasksTrue(next, tasks)
  {
    hide Decode;
    forall w, msg | w in tasks && msg in tasks[w].msgs
      ensures MessageTrue(next, msg)
    {
      assert MessageTrue(b, msg);
    }
  }

  /** Apart from fresh deliveries a worker keeps its messages, or drops the first of them. */
  lemma TasksTrueStep(cfg: Config, s: Sys, step: Step)
    requires Enabled(cfg, s, step) && StreamValid(s.stream, s.now) && TasksTrue(s.stream, s.tasks)
    ensures TasksTrue(NextStream(cfg, s, step), NextTasks(cfg, s, step))
  {
    var tasks := NextTasks(cfg, s, step);
    if step.Read? {
      DeliverValid(s.stream, step.n, s.now);
      assert forall i | 0 <= i < |Oldest(s.stream, step.n)| :: Oldest(s.stream, step.n)[i] in Oldest(s.stream, step.n);
      DecodedTrue(s.stream, Oldest(s.stream, step.n));
    } else if step.Takeover? {
      DecodedTrue(s.stream, step.ids);
    }
    StreamStep(cfg, s, step);
    assert TasksTrue(s.stream, tasks) by {
      hide MessageTrue, DecodeAll, Oldest, Process, NextStream;
    }
    hide NextTasks, NextStream;
    MessagesStayTrue(s.stream, tasks, NextStream(cfg, s, step));
  }

  /** A worker that becomes done with a message from a row leaves that row's event not pending. */
  lemma DecidingSettles(cfg: Config, s: Sys, step: Step, w: nat, o: nat)
    requires Enabled(cfg, s, step) && RowsKnown(s.db, s.hist.created) && Valid(s.stream)
    requires EntriesKnown(s.stream, s.hist.created, s.hist.lost) && TasksTrue(s.stream, s.tasks)
    requires step in {Attempt(w), DeadLetter(w), Look(w)}
    requires w in s.tasks && s.tasks[w].msgs != [] && !Decided(s.tasks[w])
    requires Decided(NextTasks(cfg, s, step)[w]) && FromRow(s.stream, s.tasks[w].msgs[0].mid, o)
    ensures !IsPending(NextDb(cfg, s, step), s.hist.created[o])
  {
    var msg := s.tasks[w].msgs[0];
    assert MessageTrue(s.stream, msg);
    assert msg.payload == Payload(Some(s.hist.created[o]), true);
    hide EntriesKnown, TasksTrue, MessageTrue, Absorb, Touch;
  }

  /** Only the worker's own steps turn a task into one that is done with its first message. */
  lemma DecidedBefore(cfg: Config, s: Sys, step: Step, w: nat)
    requires Enabled(cfg, s, step) && Valid(s.stream)
    requires w in NextTasks(cfg, s, step) && Decided(NextTasks(cfg, s, step)[w])
    ensures w in s.tasks && s.tasks[w].msgs == NextTasks(cfg, s, step)[w].msgs
    ensures !Decided(s.tasks[w]) ==> step in {Attempt(w), DeadLetter(w), Look(w)}
  {
    hide DecodeAll, Process;
  }

  lemma DecidedStep(cfg: Config, s: Sys, step: Step)
    requires Enabled(cfg, s, step) && Recoverable(s) && StreamValid(s.stream, s.now)
    requires HistoryValid(s.db, s.hist.filed, s.hist.created)
    requires RowPerRaise(s.db, s.hist.created, NextDb(cfg, s, step), NextHistory(cfg, s, step).created)
    ensures var t := Next(cfg, s, step); DecidedNotCurrent(t.db, t.stream, t.tasks, t.hist.created)
  {
    var t := Next(cfg, s, step);
    StreamStep(cfg, s, step);
    hide NextDb, NextStream, NextTasks, NextHistory, NextRecons, Enabled, Current, Decided, RowPerRaise,
         RecordedThere, MarkedThere, CurrentSafe;
    forall w, o | w in t.tasks && Decided(t.tasks[w]) && FromRow(t.stream, t.tasks[w].msgs[0].mid, o)
      ensures !Current(t.db, t.hist.created, o)
    {
      DecidedBefore(cfg, s, step, w);
      var msg := t.tasks[w].msgs[0];
      assert msg in s.tasks[w].msgs && MessageTrue(s.stream, msg);
      assert FromRow(s.stream, msg.mid, o);
      if Current(t.db, t.hist.created, o) {
        CurrentBefore(s.db, s.hist.created, t.db, t.hist.created, o);
        if !Decided(s.tasks[w]) {
          DecidingSettles(cfg, s, step, w, o);
          CurrentIsPending(s.db, s.hist.created, t.db, t.hist.created, o);
        }
      }
    }
  }

  lemma CurrentIsPending(db: Db, created: map<nat, EventId>, next: Db, created': map<nat, EventId>, o: nat)
    requires RowPerRaise(db, created, next, created') && forall p | p in created :: p < db.nextOutbox
    requires Current(next, created', o) && o in created
    ensures IsPending(next, created[o])
  {}

  /** An entry goes when Redis is lost or when the worker that is done with it acknowledges it. */
  lemma EntryStays(cfg: Config, s: Sys, step: Step, mid: nat)
    requires Enabled(cfg, s, step) && mid in s.stream.entries && !step.LoseRedis?
    requires step.Acknowledge? && Decided(s.tasks[step.w]) ==> s.tasks[step.w].msgs[0].mid != mid
    ensures mid in NextStream(cfg, s, step).entries
  {}

  lemma StillThereStep(cfg: Config, s: Sys, step: Step, o: nat, id: EventId, mid: nat)
    requires Enabled(cfg, s, step) && Recoverable(s) && HistoryValid(s.db, s.hist.filed, s.hist.created)
    requires RowPerRaise(s.db, s.hist.created, NextDb(cfg, s, step), NextHistory(cfg, s, step).created)
    requires StillThere(s.db, s.stream, s.hist.created, s.hist.lost, o, mid)
    requires o in s.hist.created && OwnMessage(s.stream, mid, id, o)
    ensures var h := NextHistory(cfg, s, step);
            StillThere(NextDb(cfg, s, step), NextStream(cfg, s, step), h.created, h.lost, o, mid)
  {
    var h := NextHistory(cfg, s, step);
    assert h.lost == if step.LoseRedis? then s.stream.nextId else s.hist.lost;
    hide NextHistory, NextDb, Current, Decided, RowPerRaise, CurrentSafe, RecordedThere, MarkedThere, TasksTrue;
    if Current(NextDb(cfg, s, step), h.created, o) && h.lost <= mid && !step.LoseRedis? {
      CurrentBefore(s.db, s.hist.created, NextDb(cfg, s, step), h.created, o);
      assert FromRow(s.stream, mid, o);
      EntryStays(cfg, s, step, mid);
    }
  }

  lemma RecordedStep(cfg: Config, s: Sys, step: Step)
    requires Enabled(cfg, s, step) && Recoverable(s) && HistoryValid(s.db, s.hist.filed, s.hist.created)
    requires WellFormed(s.db) && MessagesValid(s.db, s.stream, s.recons, s.now)
    requires RowPerRaise(s.db, s.hist.created, NextDb(cfg, s, step), NextHistory(cfg, s, step).created)
    ensures var t := Next(cfg, s, step); RecordedThere(t.db, t.stream, t.hist.created, t.hist.lost)
  {
    var t := Next(cfg, s, step);
    forall o | o in t.db.outbox && t.db.outbox[o].messageId.Some?
      ensures StillThere(t.db, t.stream, t.hist.created, t.hist.lost, o, t.db.outbox[o].messageId.value)
    {
      RecordedSource(cfg, s, step, o);
      hide NextDb, NextStream, NextTasks, NextHistory, NextRecons, Enabled, StillThere, RowPerRaise;
      var mid := t.db.outbox[o].messageId.value;
      assert StillThere(s.db, s.stream, s.hist.created, s.hist.lost, o, mid);
      StillThereStep(cfg, s, step, o, s.db.outbox[o].eventId, mid);
    }
  }

  /** A recorded message was recorded before, or marked by the transaction that commits. */
  lemma RecordedSource(cfg: Config, s: Sys, step: Step, o: nat)
    requires Enabled(cfg, s, step) && WellFormed(s.db) && MessagesValid(s.db, s.stream, s.recons, s.now)
    requires var db := NextDb(cfg, s, step); o in db.outbox && db.outbox[o].messageId.Some?
    ensures var mid := NextDb(cfg, s, step).outbox[o].messageId.value;
            && o in s.db.outbox && OwnMessage(s.stream, mid, s.db.outbox[o].eventId, o)
            && (s.db.outbox[o].messageId == Some(mid)
                || exists r :: r in s.recons && o in s.recons[r].marks && s.recons[r].marks[o].mid == mid)
  {
    if step.Commit? {
      assert RowValid(s.stream, s.now, o, s.db.outbox[o]);
    } else {
      OutboxStep(cfg, s, step);
      hide NextDb;
      assert RowValid(s.stream, s.now, o, s.db.outbox[o]);
    }
  }

  lemma MarkedStep(cfg: Config, s: Sys, step: Step)
    requires Enabled(cfg, s, step) && Recoverable(s) && HistoryValid(s.db, s.hist.filed, s.hist.created)
    requires LocksValid(s.db, s.recons) && MessagesValid(s.db, s.stream, s.recons, s.now)
    requires RowPerRaise(s.db, s.hist.created, NextDb(cfg, s, step), NextHistory(cfg, s, step).created)
    ensures var t := Next(cfg, s, step); MarkedThere(t.db, t.stream, t.recons, t.hist.created, t.hist.lost)
  {
    var t := Next(cfg, s, step);
    forall r, o | r in t.recons && o in t.recons[r].marks
      ensures StillThere(t.db, t.stream, t.hist.created, t.hist.lost, o, t.recons[r].marks[o].mid)
    {
      MarkSource(cfg, s, step, r, o);
      hide NextDb, NextStream, NextTasks, NextHistory, NextRecons, Enabled, RowPerRaise, Current;
      var mid := t.recons[r].marks[o].mid;
      if mid !in t.stream.entries {
        StillThereStep(cfg, s, step, o, s.db.outbox[o].eventId, mid);
      }
    }
  }

  /** A mark stood before, or its message is in the stream now. */
  lemma MarkSource(cfg: Config, s: Sys, step: Step, r: nat, o: nat)
    requires Enabled(cfg, s, step) && LocksValid(s.db, s.recons) && MessagesValid(s.db, s.stream, s.recons, s.now)
    requires r in NextRecons(cfg, s, step) && o in NextRecons(cfg, s, step)[r].marks
    ensures var mid := NextRecons(cfg, s, step)[r].marks[o].mid;
            || mid in NextStream(cfg, s, step).entries
            || (&& r in s.recons && o in s.recons[r].marks && s.recons[r].marks[o].mid == mid
                && o in s.db.outbox && OwnMessage(s.stream, mid, s.db.outbox[o].eventId, o))
  {
    hide ClaimUnpublished, ExpiredRows, UndeliveredBelow, DecodeAll;
    if r in s.recons && o in s.recons[r].marks {
      assert o in Locked(s.recons[r]);
      assert MarkValid(s.stream, s.now, o, s.db.outbox[o].eventId, s.recons[r].marks[o]);
    }
  }

  /** Whichever step takes a pending event's current row off its list, deletes or dooms it, finds the event terminal. */
  lemma CurrentRowStays(cfg: Config, s: Sys, step: Step, id: EventId, o: nat)
    requires Enabled(cfg, s, step) && WellFormed(s.db) && HistoryValid(s.db, s.hist.filed, s.hist.created)
    requires CurrentRowOf(s.db, s.recons, s.hist.created, id, o) && IsPending(NextDb(cfg, s, step), id)
    requires RowPerRaise(s.db, s.hist.created, NextDb(cfg, s, step), NextHistory(cfg, s, step).created)
    ensures CurrentRowOf(NextDb(cfg, s, step), NextRecons(cfg, s, step), NextHistory(cfg, s, step).created, id, o)
  {
    CurrentAfter(s.db, s.hist.created, NextDb(cfg, s, step), NextHistory(cfg, s, step).created, o);
    hide NextHistory, Current, RowPerRaise;
    assert SafeRow(s.db, s.recons, id, o);
    if step.Commit? || step.Snapshot? {
      CleanupLosesNothing(cfg, s, step, id, o);
    } else {
      OthersLoseNothing(cfg, s, step, id, o);
    }
    hide NextDb, NextRecons, Enabled;
  }

  lemma CurrentSafeStep(cfg: Config, s: Sys, step: Step)
    requires Enabled(cfg, s, step) && WellFormed(s.db) && NothingLost(s.db, s.recons)
    requires CurrentSafe(s.db, s.recons, s.hist.created) && HistoryValid(s.db, s.hist.filed, s.hist.created)
    requires RowPerRaise(s.db, s.hist.created, NextDb(cfg, s, step), NextHistory(cfg, s, step).created)
    ensures CurrentSafe(NextDb(cfg, s, step), NextRecons(cfg, s, step), NextHistory(cfg, s, step).created)
  {
    hide NextDb, NextRecons, NextHistory, CurrentRowOf, Enabled, WellFormed;
    var db, recons, created := NextDb(cfg, s, step), NextRecons(cfg, s, step), NextHistory(cfg, s, step).created;
    forall id | IsPending(db, id)
      ensures exists o :: CurrentRowOf(db, recons, created, id, o)
    {
      if IsPending(s.db, id) {
        var o :| CurrentRowOf(s.db, s.recons, s.hist.created, id, o);
        CurrentRowStays(cfg, s, step, id, o);
      } else {
        NewlyPendingHasRow(cfg, s, step, id);
        assert Raised(s.db, db, id);
        NewRowIsCurrent(s.db, s.hist.created, db, recons, created, id);
      }
    }
  }

  lemma NewRowIsCurrent(db: Db, created: map<nat, EventId>, next: Db, recons: map<nat, Recon>,
                        created': map<nat, EventId>, id: EventId)
    requires created' == created[db.nextOutbox := id] && forall p | p in created :: p < db.nextOutbox
    requires IsPending(next, id) && SafeRow(next, recons, id, db.nextOutbox)
    ensures CurrentRowOf(next, recons, created', id, db.nextOutbox)
  {}

  lemma RecoverableStep(cfg: Config, base: map<CustomerId, Customer>, s: Sys, step: Step)
    requires Enabled(cfg, s, step) && Inv(cfg, base, s) && Recoverable(s)
    ensures Valid(s.stream) && Recoverable(Next(cfg, s, step))
  {
    assert Balanced(s.db, s.hist);
    RaiseStep(cfg, s, step);
    hide NextDb, NextStream, NextTasks, NextHistory, NextRecons, Enabled, WellFormed, LocksValid, NothingLost,
         HistoryValid, RowPerRaise;
    RowsKnownStep(cfg, s, step);
    EntriesKnownStep(cfg, s, step);
    TasksTrueStep(cfg, s, step);
    DecidedStep(cfg, s, step);
    RecordedStep(cfg, s, step);
    MarkedStep(cfg, s, step);
    CurrentSafeStep(cfg, s, step);
  }

  lemma {:induction false} RecoverableRun(cfg: Config, base: map<CustomerId, Customer>, s: Sys, steps: seq<Step>)
    requires Inv(cfg, base, s) && Recoverable(s) && Legal(cfg, s, steps)
    ensures Recoverable(Run(cfg, s, steps))
    decreases |steps|
  {
    hide Inv, Enabled, Next, Recoverable;
    if steps != [] {
      InvStep(cfg, base, s, steps[0]);
      RecoverableStep(cfg, base, s, steps[0]);
      RecoverableRun(cfg, base, Next(cfg, s, steps[0]), steps[1..]);
    }
  }

  lemma ReachableRecoverable(cfg: Config, base: map<CustomerId, Customer>, s: Sys)
    requires Reachable(cfg, base, s)
    ensures Recoverable(s)
  {
    hide Inv, Recoverable;
    var now: int, steps :| Legal(cfg, Start(base, now), steps) && Run(cfg, Start(base, now), steps) == s;
    InvStart(cfg, base, now);
    assert Recoverable(Start(base, now)) by { StartRecoverable(base, now); }
    RecoverableRun(cfg, base, Start(base, now), steps);
  }

  lemma StartRecoverable(base: map<CustomerId, Customer>, now: int)
    ensures Recoverable(Start(base, now))
  {}

  /**
   * In every reachable state a pending event has a newest outbox row, which no cleanup under way will take. The row
   * is unpublished, or the message it records is in the stream if and only if Redis has not been lost since.
   */
  lemma PendingHasRowOrMessage(cfg: Config, base: map<CustomerId, Customer>, s: Sys, id: EventId) returns (o: nat)
    requires Reachable(cfg, base, s) && IsPending(s.db, id)
    ensures o in s.db.outbox && s.db.outbox[o].eventId == id && !Doomed(s.recons, o)
    ensures forall p | p in s.hist.created && s.hist.created[p] == id :: p <= o
    ensures var row := s.db.outbox[o];
            || (row.publishedAt.None? && row.messageId.None?)
            || (row.messageId.Some?
                && (row.messageId.value in s.stream.entries <==> s.hist.lost <= row.messageId.value))
    ensures var row := s.db.outbox[o];
            MessageLive(row, s.stream) ==> s.stream.entries[row.messageId.value] == OwnEntry(id, o)
  {
    ReachableInv(cfg, base, s);
    ReachableRecoverable(cfg, base, s);
    assert Balanced(s.db, s.hist) && MessagesValid(s.db, s.stream, s.recons, s.now);
    hide Inv, Reachable;
    o :| CurrentRowOf(s.db, s.recons, s.hist.created, id, o);
    var row := s.db.outbox[o];
    assert RowValid(s.stream, s.now, o, row);
    if row.messageId.Some? {
      assert StillThere(s.db, s.stream, s.hist.created, s.hist.lost, o, row.messageId.value);
    }
  }
}
