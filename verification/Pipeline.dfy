/**
 * The event pipeline as a state machine: ingestion, the outbox reconciler's transactions, the Redis stream,
 * workers with their retry loops, the dead-letter queue and replay, under crashes, rollbacks and loss of Redis.
 */
module Pipeline {
  import opened Types
  import opened Decay
  import opened Database
  import opened Broker

  /** OUTBOX_BATCH_SIZE, WORKER_CLAIM_IDLE_MS, WORKER_MAX_RETRIES, OUTBOX_RETENTION_DAYS and the decay factor. */
  datatype Config = Config(q: Factor, limit: nat, claimIdle: nat, maxRetries: nat, retention: nat)

  /**
   * A reconcile transaction in flight. It holds the row locks of the rows it claimed; its marks are visible to
   * nobody else; `sent` are the rows it published again; `doomed` is what its cleanup chose from a snapshot.
   */
  datatype Recon = Recon(todo: seq<nat>, marks: map<nat, Mark>, sent: set<nat>, doomed: set<nat>, decided: bool)

  /**
   * A worker busy with a batch: the head's attempt number, whether its failing transaction has looked for the
   * event in vain, and whether the head is ready to be acknowledged.
   */
  datatype Task = Task(msgs: seq<Msg>, attempt: nat, blind: bool, handled: bool)

  /** What has ever happened; no step reads it. */
  datatype History = History(
    created: map<nat, EventId>,   // every outbox row ever written, and its event
    filed: set<nat>,              // the dead-letter rows written by a step that took an event from pending to failed
    rolled: map<nat, nat>,        // per outbox row, the reconciles that published it and were rolled back
    lost: nat)                    // the next message id when Redis was last lost

  datatype Sys = Sys(
    db: Db, now: int, stream: Stream, recons: map<nat, Recon>, tasks: map<nat, Task>, hist: History)

  datatype Step =
    | Ingest(body: EventIn)
    | Replayed(d: nat)
    | Tick(t: int)
    | Claim(r: nat, skipped: set<nat>)  // rows that others' cleanups have locked are skipped
    | Advance(r: nat)
    | Snapshot(r: nat)
    | Commit(r: nat, deleted: set<nat>)
    | Rollback(r: nat)
    | Read(w: nat, n: nat)
    | Takeover(w: nat, ids: seq<nat>)
    | Attempt(w: nat)
    | Hiccup(w: nat)            // an attempt that fails for a transient reason
    | DeadLetter(w: nat)
    | Look(w: nat)              // the failing transaction's read, when it finds no event
    | BlindDeadLetter(w: nat)   // the rest of it; the event may have been ingested since
    | Acknowledge(w: nat)
    | Abandon(w: nat)           // crash, failed acknowledgement, or any other escape from the batch
    | LoseRedis
    | Foreign(raw: Raw)         // an entry some other program wrote

  function Locked(rc: Recon): set<nat> {
    (set o | o in rc.todo) + rc.marks.Keys
  }

  function AllLocked(recons: map<nat, Recon>): set<nat> {
    set r, o | r in recons && o in Locked(recons[r]) :: o
  }

  function AllDoomed(recons: map<nat, Recon>): set<nat> {
    set r, o | r in recons && o in recons[r].doomed :: o
  }

  /** The entry that publishing an outbox row writes. */
  function OwnEntry(id: EventId, o: nat): Entry {
    Entry(Body(Payload(Some(id), true)), Some(o))
  }

  predicate MessageLive(row: OutboxRow, b: Stream) {
    row.messageId.Some? && Contains(b, row.messageId.value)
  }

  function Oldest(b: Stream, n: nat): seq<nat> {
    Take(Undelivered(b), n)
  }

  predicate Working(s: Sys, w: nat) {
    w in s.tasks && s.tasks[w].msgs != [] && !s.tasks[w].handled
  }

  function Head(s: Sys, w: nat): Payload
    requires Working(s, w)
  {
    s.tasks[w].msgs[0].payload
  }

  predicate Enabled(cfg: Config, s: Sys, step: Step) {
    match step
    case Ingest(_) => true
    case Replayed(_) => true
    case Tick(t) => s.now <= t
    case Claim(r, skipped) => r !in s.recons && skipped <= AllDoomed(s.recons)
    case Advance(r) => r in s.recons && s.recons[r].todo != [] && s.recons[r].todo[0] in s.db.outbox
    case Snapshot(r) => r in s.recons && s.recons[r].todo == [] && !s.recons[r].decided
    case Commit(r, deleted) =>
      && r in s.recons && s.recons[r].decided
      && deleted <= s.recons[r].doomed && deleted !! AllLocked(s.recons - {r})
    case Rollback(r) => r in s.recons
    case Read(w, _) => w !in s.tasks
    case Takeover(w, ids) =>
      && w !in s.tasks && ids != []
      && forall m | m in ids :: Idle(s.stream, m, cfg.claimIdle, s.now) && m in s.stream.entries
    case Attempt(w) => Working(s, w) && s.tasks[w].attempt <= cfg.maxRetries
    case Hiccup(w) => Working(s, w) && s.tasks[w].attempt <= cfg.maxRetries
    case DeadLetter(w) => Working(s, w) && s.tasks[w].attempt == cfg.maxRetries + 1 && !s.tasks[w].blind
    case Look(w) =>
      && Working(s, w) && s.tasks[w].attempt == cfg.maxRetries + 1 && !s.tasks[w].blind
      && FiledUnder(Head(s, w)) !in s.db.events
    case BlindDeadLetter(w) => Working(s, w) && s.tasks[w].blind
    case Acknowledge(w) => w in s.tasks && s.tasks[w].msgs != [] && s.tasks[w].handled
    case Abandon(w) => w in s.tasks
    case LoseRedis => true
    case Foreign(_) => true
  }

  function NextDb(cfg: Config, s: Sys, step: Step): Db
    requires Enabled(cfg, s, step)
  {
    match step
    case Ingest(body) => PersistOne(s.db, body, s.now)
    case Replayed(d) => Replay(s.db, d, s.now)
    case Attempt(w) =>
      (match Process(cfg.q, s.db, Head(s, w), s.now) case Ok(db) => db case Err(_) => s.db)
    case DeadLetter(w) => Fail(s.db, Head(s, w), cfg.maxRetries)
    case BlindDeadLetter(w) => AddDlq(s.db, FiledUnder(Head(s, w)), cfg.maxRetries)
    case Commit(r, deleted) => s.db.(outbox := CommitOutbox(s.db.outbox, s.recons[r].marks, deleted))
    case _ => s.db
  }

  function NextStream(cfg: Config, s: Sys, step: Step): Stream
    requires Enabled(cfg, s, step)
  {
    match step
    case Advance(r) =>
      var o := s.recons[r].todo[0];
      if MessageLive(s.db.outbox[o], s.stream) then s.stream
      else Enqueue(s.stream, OwnEntry(s.db.outbox[o].eventId, o))
    case Read(_, n) => Deliver(s.stream, Oldest(s.stream, n), s.now)
    case Takeover(_, ids) => Reclaim(s.stream, ids, s.now)
    case Acknowledge(w) => Ack(s.stream, s.tasks[w].msgs[0].mid)
    case LoseRedis => Lose(s.stream)
    case Foreign(raw) => Enqueue(s.stream, Entry(raw, None))
    case _ => s.stream
  }

  function Advanced(s: Sys, rc: Recon): Recon
    requires rc.todo != [] && rc.todo[0] in s.db.outbox
  {
    var o := rc.todo[0];
    var row := s.db.outbox[o];
    if MessageLive(row, s.stream) then
      rc.(todo := rc.todo[1..], marks := rc.marks[o := Mark(s.now, row.messageId.value)])
    else
      rc.(todo := rc.todo[1..], marks := rc.marks[o := Mark(s.now, s.stream.nextId)], sent := rc.sent + {o})
  }

  function NextRecons(cfg: Config, s: Sys, step: Step): map<nat, Recon>
    requires Enabled(cfg, s, step)
  {
    match step
    case Claim(r, skipped) =>
      var locked := AllLocked(s.recons) + skipped;
      s.recons[r := Recon(ClaimUnpublished(s.db, s.now, locked, cfg.limit), map[], {}, {}, false)]
    case Advance(r) => s.recons[r := Advanced(s, s.recons[r])]
    case Snapshot(r) =>
      s.recons[r := s.recons[r].(doomed := ExpiredRows(s.db, s.now - cfg.retention), decided := true)]
    case Commit(r, _) => s.recons - {r}
    case Rollback(r) => s.recons - {r}
    case _ => s.recons
  }

  function Tasked(tasks: map<nat, Task>, w: nat, msgs: seq<Msg>): map<nat, Task> {
    if msgs == [] then tasks - {w} else tasks[w := Task(msgs, 0, false, false)]
  }

  function NextTasks(cfg: Config, s: Sys, step: Step): map<nat, Task>
    requires Enabled(cfg, s, step) && Valid(s.stream)
  {
    match step
    case Read(w, n) =>
      DeliverValid(s.stream, n, s.now);
      Tasked(s.tasks, w, DecodeAll(s.stream, Oldest(s.stream, n)))
    case Takeover(w, ids) => Tasked(s.tasks, w, DecodeAll(s.stream, ids))
    case Attempt(w) =>
      if Process(cfg.q, s.db, Head(s, w), s.now).Ok? then s.tasks[w := s.tasks[w].(handled := true)]
      else s.tasks[w := s.tasks[w].(attempt := s.tasks[w].attempt + 1)]
    case Hiccup(w) => s.tasks[w := s.tasks[w].(attempt := s.tasks[w].attempt + 1)]
    case DeadLetter(w) => s.tasks[w := s.tasks[w].(handled := true)]
    case Look(w) => s.tasks[w := s.tasks[w].(blind := true)]
    case BlindDeadLetter(w) => s.tasks[w := s.tasks[w].(handled := true)]
    case Acknowledge(w) => Tasked(s.tasks, w, s.tasks[w].msgs[1..])
    case Abandon(w) => s.tasks - {w}
    case _ => s.tasks
  }

  function Recorded(created: map<nat, EventId>, outbox: map<nat, OutboxRow>): map<nat, EventId> {
    created + map o | o in outbox :: outbox[o].eventId
  }

  function NextFiled(cfg: Config, s: Sys, step: Step): set<nat>
    requires Enabled(cfg, s, step)
  {
    if step.DeadLetter? && IsPending(s.db, FiledUnder(Head(s, step.w))) then s.hist.filed + {s.db.nextDlq}
    else s.hist.filed
  }

  function NextRolled(cfg: Config, s: Sys, step: Step): map<nat, nat>
    requires Enabled(cfg, s, step)
  {
    if step.Rollback? then
      var sent := s.recons[step.r].sent;
      map o | o in s.hist.rolled.Keys + sent :: Count(s.hist.rolled, o) + (if o in sent then 1 else 0)
    else s.hist.rolled
  }

  function NextHistory(cfg: Config, s: Sys, step: Step): History
    requires Enabled(cfg, s, step)
  {
    History(Recorded(s.hist.created, NextDb(cfg, s, step).outbox), NextFiled(cfg, s, step),
            NextRolled(cfg, s, step), if step.LoseRedis? then s.stream.nextId else s.hist.lost)
  }

  function Next(cfg: Config, s: Sys, step: Step): Sys
    requires Enabled(cfg, s, step) && Valid(s.stream)
  {
    Sys(NextDb(cfg, s, step), if step.Tick? then step.t else s.now, NextStream(cfg, s, step),
        NextRecons(cfg, s, step), NextTasks(cfg, s, step), NextHistory(cfg, s, step))
  }

  /** Any set of customer profiles, and nothing else. */
  function Start(base: map<CustomerId, Customer>, now: int): Sys {
    Sys(Db(map[], base, map[], map[], map[], 0, 0), now, EMPTY, map[], map[], History(map[], {}, map[], 0))
  }
}
