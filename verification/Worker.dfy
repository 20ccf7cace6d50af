/** The worker: one reconcile of the outbox, and the retry-and-acknowledge loop over a batch of messages. */
module Worker {
  import opened Types
  import opened Scoring
  import opened Database
  import opened Broker
  import opened Store
  import opened Queue
  import opened Pipeline

  /** What going through claimed rows does: the marks to commit, the stream after, and how many were sent. */
  datatype Publication = Publication(marks: map<nat, Mark>, stream: Stream, count: nat)

  function PublishRows(outbox: map<nat, OutboxRow>, b: Stream, now: int, rows: seq<nat>): Publication {
    if rows == [] then Publication(map[], b, 0)
    else
      var o := rows[|rows| - 1];
      var before := PublishRows(outbox, b, now, rows[..|rows| - 1]);
      if o !in outbox then before
      else if MessageLive(outbox[o], before.stream) then
        before.(marks := before.marks[o := Mark(now, outbox[o].messageId.value)])
      else
        Publication(before.marks[o := Mark(now, before.stream.nextId)],
                    Enqueue(before.stream, OwnEntry(outbox[o].eventId, o)), before.count + 1)
  }

  lemma PublishNothing(outbox: map<nat, OutboxRow>, b: Stream, now: int)
    ensures PublishRows(outbox, b, now, []) == Publication(map[], b, 0)
    ensures CommitOutbox(outbox, map[], {}) == outbox
  {}

  lemma PublishStep(outbox: map<nat, OutboxRow>, b: Stream, now: int, rows: seq<nat>, i: nat)
    requires i < |rows| && rows[i] in outbox
    ensures var o, p := rows[i], PublishRows(outbox, b, now, rows[..i]);
            var next := PublishRows(outbox, b, now, rows[..i + 1]);
            var k := Mark(now, if MessageLive(outbox[o], p.stream) then outbox[o].messageId.value else p.stream.nextId);
            && next.marks == p.marks[o := k]
            && CommitOutbox(outbox, next.marks, {})
               == CommitOutbox(outbox, p.marks, {})[o := Marked(CommitOutbox(outbox, p.marks, {})[o], k)]
            && next.stream == (if MessageLive(outbox[o], p.stream) then p.stream
                               else Enqueue(p.stream, OwnEntry(outbox[o].eventId, o)))
            && next.count == p.count + (if MessageLive(outbox[o], p.stream) then 0 else 1)
  {
    assert rows[..i + 1][..i] == rows[..i];
  }

  lemma CleanupAfterMarks(db: Db, marks: map<nat, Mark>, cutoff: int)
    ensures var marked := db.(outbox := CommitOutbox(db.outbox, marks, {}));
            CommitOutbox(marked.outbox, map[], ExpiredRows(marked, cutoff))
            == CommitOutbox(db.outbox, marks, ExpiredRows(db, cutoff))
  {}

  /** No row older than the cutoff belongs to an event that has been processed or has failed. */
  ghost predicate NothingExpired(db: Db, cutoff: int) {
    forall o | o in db.outbox && db.outbox[o].createdAt < cutoff && db.outbox[o].eventId in db.events ::
      db.events[db.outbox[o].eventId].status == Pending
  }

  lemma ExpiredGone(db: Db, marks: map<nat, Mark>, cutoff: int)
    ensures NothingExpired(db.(outbox := CommitOutbox(db.outbox, marks, ExpiredRows(db, cutoff))), cutoff)
  {}

  /** One claimed row: refresh it while its message is in the stream, publish it again otherwise. */
  method PublishRow(tables: Tables, queue: RedisStreamsQueue, o: nat, row: OutboxRow, now: int) returns (sent: bool)
    requires o in tables.outbox
    modifies tables, queue
    ensures var b := old(queue.Contents());
            && sent == !MessageLive(row, b)
            && queue.Contents() == (if sent then Enqueue(b, OwnEntry(row.eventId, o)) else b)
            && tables.Contents() == old(tables.Contents()).(outbox := old(tables.outbox)[o :=
                 Marked(old(tables.outbox)[o], Mark(now, if sent then b.nextId else row.messageId.value))])
  {
    if row.messageId.Some? {
      var present := queue.Holds(row.messageId.value);
      if present {
        tables.MarkPublished(o, now, row.messageId.value);
        return false;
      }
    }
    var mid := queue.Publish(OwnEntry(row.eventId, o));
    tables.MarkPublished(o, now, mid);
    return true;
  }

  datatype QueueError = QueueUnavailable

  /** The loop over the claimed rows, stopped by an exception at row `failAt`, if that is one of them. */
  method PublishClaimed(tables: Tables, queue: RedisStreamsQueue, rows: seq<nat>, now: int, failAt: Option<nat>)
    returns (done: nat, count: nat)
    requires forall i | 0 <= i < |rows| :: rows[i] in tables.outbox
    modifies tables, queue
    ensures done == if failAt.Some? && failAt.value < |rows| then failAt.value else |rows|
    ensures var p := PublishRows(old(tables.outbox), old(queue.Contents()), now, rows[..done]);
            && count == p.count && queue.Contents() == p.stream
            && tables.Contents() == old(tables.Contents()).(outbox := CommitOutbox(old(tables.outbox), p.marks, {}))
  {
    hide PublishRows, CommitOutbox, MessageLive, Enqueue;
    var outbox := tables.outbox;  // the rows as the claim loaded them
    ghost var b := queue.Contents();
    PublishNothing(outbox, b, now);
    assert rows[..0] == [];
    done, count := 0, 0;
    while done < |rows| && failAt != Some(done)
      invariant done <= |rows| && (failAt.Some? ==> done <= failAt.value)
      invariant count == PublishRows(outbox, b, now, rows[..done]).count
      invariant queue.Contents() == PublishRows(outbox, b, now, rows[..done]).stream
      invariant var marks := PublishRows(outbox, b, now, rows[..done]).marks;
                tables.Contents() == old(tables.Contents()).(outbox := CommitOutbox(outbox, marks, {}))
    {
      PublishStep(outbox, b, now, rows, done);
      SameKeys(outbox, PublishRows(outbox, b, now, rows[..done]).marks);
      var sent := PublishRow(tables, queue, rows[done], outbox[rows[done]], now);
      if sent {
        count := count + 1;
      }
      done := done + 1;
    }
  }

  lemma SameKeys(outbox: map<nat, OutboxRow>, marks: map<nat, Mark>)
    ensures CommitOutbox(outbox, marks, {}).Keys == outbox.Keys
  {}

  /**
   * reconcile_outbox, run by itself. `failAt` is the row, if any, at which an exception rolls the transaction back;
   * past the last row it is the cleanup or the commit that fails. What was sent stays in the stream either way.
   */
  method ReconcileOutbox(tables: Tables, queue: RedisStreamsQueue, cfg: Config, now: int, failAt: Option<nat>)
    returns (r: Result<nat, QueueError>)
    requires forall o | o in tables.outbox :: o < tables.nextOutbox
    modifies tables, queue
    ensures var db, b := old(tables.Contents()), old(queue.Contents());
            var rows := ClaimUnpublished(db, now, {}, cfg.limit);
            match failAt
            case Some(i) =>
              && r == Err(QueueUnavailable) && tables.Contents() == db
              && queue.Contents() == PublishRows(db.outbox, b, now, Take(rows, i)).stream
            case None =>
              var p := PublishRows(db.outbox, b, now, rows);
              && r == Ok(p.count) && queue.Contents() == p.stream
              && tables.Contents()
                 == db.(outbox := CommitOutbox(db.outbox, p.marks, ExpiredRows(db, now - cfg.retention)))
    ensures failAt == None ==> NothingExpired(tables.Contents(), now - cfg.retention)
  {
    hide PublishRows, CommitOutbox, ExpiredRows, Claimable;
    var before := tables.Contents();
    ghost var b := queue.Contents();
    var rows := tables.Claim(now, cfg.limit);
    ClaimedExist(before, now, cfg.limit);
    hide ClaimUnpublished;
    var done, count := PublishClaimed(tables, queue, rows, now, failAt);
    if failAt.Some? {
      assert rows[..done] == Take(rows, failAt.value);
      tables.Restore(before);
      return Err(QueueUnavailable);
    }
    assert rows[..done] == rows;
    CleanupAfterMarks(before, PublishRows(before.outbox, b, now, rows).marks, now - cfg.retention);
    ExpiredGone(before, PublishRows(before.outbox, b, now, rows).marks, now - cfg.retention);
    tables.CleanupOutbox(now - cfg.retention);
    return Ok(count);
  }

  lemma ClaimedExist(db: Db, now: int, limit: nat)
    requires forall o | o in db.outbox :: o < db.nextOutbox
    ensures var rows := ClaimUnpublished(db, now, {}, limit); forall i | 0 <= i < |rows| :: rows[i] in db.outbox
  {
    ClaimIsOldestFirst(db, now, {}, limit);
    var rows := ClaimUnpublished(db, now, {}, limit);
    assert forall i | 0 <= i < |rows| :: rows[i] in rows;
  }

  // ---------- Messages ----------

  predicate SomeAttemptRuns(faults: seq<bool>) {
    exists a | 0 <= a < |faults| :: !faults[a]
  }

  /** What becomes of a message; `faults` are the attempts a transient error cuts short. */
  function SettleWith(cfg: Config, db: Db, p: Payload, now: int, faults: seq<bool>): Db {
    if SomeAttemptRuns(faults) && Process(cfg.q, db, p, now).Ok? then Process(cfg.q, db, p, now).value
    else Fail(db, p, cfg.maxRetries)
  }

  /** The retry loop for one message. */
  method HandleMessage(tables: Tables, cfg: Config, p: Payload, now: int, faults: seq<bool>)
    requires |faults| == cfg.maxRetries + 1
    modifies tables
    ensures tables.Contents() == SettleWith(cfg, old(tables.Contents()), p, now, faults)
  {
    hide Process, Fail;
    for attempt := 0 to cfg.maxRetries + 1
      invariant tables.Contents() == old(tables.Contents())
      invariant SomeAttemptRuns(faults[..attempt]) ==> Process(cfg.q, old(tables.Contents()), p, now).Err?
      invariant attempt <= cfg.maxRetries
    {
      assert faults[..attempt + 1] == faults[..attempt] + [faults[attempt]];
      if !faults[attempt] {
        var r := tables.ProcessOneEvent(cfg.q, p, now);
        if r.Ok? {
          return;
        }
      }
      if attempt == cfg.maxRetries {
        assert faults[..attempt + 1] == faults;
        tables.FailEvent(p, attempt);
        return;
      }
    }
  }

  /** A handled message leaves the event it is filed under terminal or absent, and reopens nothing. */
  lemma HandledIsTerminal(cfg: Config, db: Db, p: Payload, now: int, faults: seq<bool>)
    ensures var next := SettleWith(cfg, db, p, now, faults);
            && next.events.Keys == db.events.Keys
            && !IsPending(next, FiledUnder(p))
            && forall id | id in db.events && id != FiledUnder(p) :: next.events[id] == db.events[id]
  {
    hide Absorb, Touch;
  }

  /** Delivering a message again, after its event became terminal, changes nothing at all. */
  lemma RedeliveryIsNoOp(cfg: Config, db: Db, p: Payload, now: int, faults: seq<bool>)
    requires IsTerminal(db, FiledUnder(p))
    ensures SettleWith(cfg, db, p, now, faults) == db
  {}

  function SettleAll(cfg: Config, db: Db, msgs: seq<Msg>, now: int, faults: seq<seq<bool>>): Db
    requires |faults| == |msgs|
  {
    if msgs == [] then db
    else
      var n := |msgs| - 1;
      SettleWith(cfg, SettleAll(cfg, db, msgs[..n], now, faults[..n]), msgs[n].payload, now, faults[n])
  }

  function AckAll(b: Stream, msgs: seq<Msg>): Stream {
    if msgs == [] then b else Ack(AckAll(b, msgs[..|msgs| - 1]), msgs[|msgs| - 1].mid)
  }

  /** Messages settled one after the other: every event one of them is filed under is settled, no other has changed. */
  lemma {:induction false} SettleAllSettles(cfg: Config, db: Db, msgs: seq<Msg>, now: int, faults: seq<seq<bool>>)
    requires |faults| == |msgs|
    ensures var next := SettleAll(cfg, db, msgs, now, faults);
            && next.events.Keys == db.events.Keys
            && (forall id | IsPending(next, id) :: IsPending(db, id))
            && (forall m | m in msgs :: !IsPending(next, FiledUnder(m.payload)))
            && (forall id | id in db.events && (forall m | m in msgs :: FiledUnder(m.payload) != id) ::
                  next.events[id] == db.events[id])
  {
    hide SettleWith;
    if msgs != [] {
      var n := |msgs| - 1;
      SettleAllSettles(cfg, db, msgs[..n], now, faults[..n]);
      HandledIsTerminal(cfg, SettleAll(cfg, db, msgs[..n], now, faults[..n]), msgs[n].payload, now, faults[n]);
      assert msgs == msgs[..n] + [msgs[n]];
    }
  }

  /** Acknowledging messages takes exactly them out of the stream and the pending list. */
  lemma {:induction false} AckAllRemoves(b: Stream, msgs: seq<Msg>)
    ensures var mids := set m | m in msgs :: m.mid;
            AckAll(b, msgs) == b.(entries := b.entries - mids, pel := b.pel - mids)
  {
    var mids := set m | m in msgs :: m.mid;
    if msgs == [] {
      assert b.entries - mids == b.entries && b.pel - mids == b.pel;
    } else {
      var n := |msgs| - 1;
      AckAllRemoves(b, msgs[..n]);
      assert msgs == msgs[..n] + [msgs[n]];
      assert mids == (set m | m in msgs[..n] :: m.mid) + {msgs[n].mid};
    }
  }

  /**
   * The batch loop: each message is settled and then acknowledged. If the acknowledgement of message `ackFails`
   * is lost, the rest of the batch is abandoned; that message is settled but stays in the pending list.
   */
  method HandleBatch(tables: Tables, queue: RedisStreamsQueue, cfg: Config, msgs: seq<Msg>, now: int,
                     faults: seq<seq<bool>>, ackFails: Option<nat>)
    returns (settled: nat, acked: nat)
    requires |faults| == |msgs| && forall i | 0 <= i < |faults| :: |faults[i]| == cfg.maxRetries + 1
    modifies tables, queue
    ensures ackFails.Some? && ackFails.value < |msgs| ==> settled == ackFails.value + 1 && acked == ackFails.value
    ensures !(ackFails.Some? && ackFails.value < |msgs|) ==> settled == |msgs| && acked == |msgs|
    ensures tables.Contents() == SettleAll(cfg, old(tables.Contents()), msgs[..settled], now, faults[..settled])
    ensures queue.Contents() == AckAll(old(queue.Contents()), msgs[..acked])
  {
    hide SettleWith, Ack;
    settled, acked := 0, 0;
    while acked < |msgs|
      invariant settled == acked <= |msgs| && (ackFails.Some? ==> acked <= ackFails.value || |msgs| <= ackFails.value)
      invariant tables.Contents() == SettleAll(cfg, old(tables.Contents()), msgs[..settled], now, faults[..settled])
      invariant queue.Contents() == AckAll(old(queue.Contents()), msgs[..acked])
    {
      assert msgs[..settled + 1][..settled] == msgs[..settled] && faults[..settled + 1][..settled] == faults[..settled];
      HandleMessage(tables, cfg, msgs[acked].payload, now, faults[acked]);
      settled := settled + 1;
      if ackFails == Some(acked) {
        return;
      }
      queue.Acknowledge(msgs[acked].mid);
      acked := acked + 1;
    }
  }
}
