/** Every transaction column by column, with the constants written out: what the shorter definitions amount to. */
module Columns {
  import opened Types
  import opened Decay
  import opened Scoring
  import opened Database
  import opened Broker
  import opened Pipeline
  import opened Worker

  // ---------- Ingestion ----------

  /** A new customer starts without consent, activity or conversion; a new event pending, with one unpublished row. */
  lemma PersistColumns(db: Db, body: EventIn, now: int)
    ensures var next := PersistOne(db, body, now);
            && (forall c | c in db.customers :: c in next.customers && next.customers[c] == db.customers[c])
            && (body.customerId !in db.customers ==>
                  next.customers == db.customers[body.customerId := Customer({}, None, false)])
            && next.customers.Keys == db.customers.Keys + {body.customerId}
            && (body.eventId in db.events ==>
                  next.events == db.events && next.outbox == db.outbox && next.nextOutbox == db.nextOutbox)
            && (body.eventId !in db.events ==>
                  && next.events == db.events[body.eventId := Event(body.customerId, body.fact, Pending, None)]
                  && next.outbox == db.outbox[db.nextOutbox := OutboxRow(body.eventId, now, None, None)]
                  && next.nextOutbox == db.nextOutbox + 1)
            && next.engagement == db.engagement && next.dlq == db.dlq && next.nextDlq == db.nextDlq
  {}

  // ---------- Processing ----------

  /** Which payloads are refused, and for what; a terminal event is passed over. */
  lemma ProcessOutcomes(q: Factor, db: Db, p: Payload, now: int)
    ensures var r := Process(q, db, p, now);
            && (r == Err(InvalidPayload) <==> !p.valid || p.idText == None)
            && (r == Err(NoDurableRecord) <==> p.valid && p.idText.Some? && p.idText.value !in db.events)
            && (r == Err(NoCustomer) <==>
                  && p.valid && p.idText.Some? && p.idText.value in db.events
                  && db.events[p.idText.value].status == Pending
                  && db.events[p.idText.value].customerId !in db.customers)
            && (p.valid && p.idText.Some? && p.idText.value in db.events ==>
                  db.events[p.idText.value].status in {Processed, Failed} ==> r == Ok(db))
  {
    hide ApplyEvent;
  }

  /** The event and the customer after a pending event is processed; every other row stays. */
  lemma ProcessColumns(q: Factor, db: Db, id: EventId, now: int)
    requires IsPending(db, id) && db.events[id].customerId in db.customers
    ensures var evt := db.events[id];
            var c, f, r := evt.customerId, evt.fact, Process(q, db, Payload(Some(id), true), now);
            && r.Ok?
            && var next := r.value;
               && next.events == db.events[id := Event(c, f, Processed, Some(now))]
               && next.customers.Keys == db.customers.Keys && next.customers - {c} == db.customers - {c}
               && (forall ch: Channel ::
                     ch in next.customers[c].optIn <==>
                       ch in db.customers[c].optIn
                       && !(ch == f.channel && ch != Web && (f.kind == Unsubscribe || f.kind == Complaint)))
               && (next.customers[c].hasConverted <==> db.customers[c].hasConverted || f.kind == Purchase)
               && next.customers[c].lastActive.Some? && next.customers[c].lastActive.value >= f.ts
               && (db.customers[c].lastActive.Some? ==>
                     && next.customers[c].lastActive.value >= db.customers[c].lastActive.value
                     && next.customers[c].lastActive.value in {f.ts, db.customers[c].lastActive.value})
               && (db.customers[c].lastActive.None? ==> next.customers[c].lastActive.value == f.ts)
               && next.engagement.Keys == db.engagement.Keys + {c} && next.engagement - {c} == db.engagement - {c}
               && next.outbox == db.outbox && next.dlq == db.dlq
               && next.nextOutbox == db.nextOutbox && next.nextDlq == db.nextDlq
  {
    hide Absorb;
  }

  /** A customer's first event is worth its base weight times its channel's factor, whichever of the 45 it is. */
  lemma FirstEventScores(q: Factor, db: Db, id: EventId, now: int)
    requires IsPending(db, id) && db.events[id].customerId in db.customers
    requires db.events[id].customerId !in db.engagement
    ensures var base := map[Purchase := 5.0, Click := 2.0, Open := 1.0, View := 0.8, Delivered := 0.3, Send := 0.1,
                            Bounce := -1.0, Unsubscribe := -3.0, Complaint := -5.0];
            var factor := map[Email := 1.0, Sms := 1.2, Whatsapp := 1.3, Push := 0.9, Web := 1.1];
            var c, f, r := db.events[id].customerId, db.events[id].fact, Process(q, db, Payload(Some(id), true), now);
            && f.kind in base && f.channel in factor && r.Ok? && c in r.value.engagement
            && var weight := base[f.kind] * factor[f.channel];
               r.value.engagement[c] == Engagement(weight, f.ts, map[f.channel := Tally(1, weight)])
  {
    WeightTable(db.events[id].fact);
    FirstTally(db.events[id].fact);
    hide Weight, Touch, UpdateBreakdown;
  }

  lemma FirstTally(f: Fact)
    ensures UpdateBreakdown(map[], f.channel, Weight(f)) == map[f.channel := Tally(1, Weight(f))]
  {
    hide Weight;
  }

  // ---------- Failing and replaying ----------

  /** A pending event fails, and one dead letter is written under the payload's id, or under "unknown". */
  lemma FailColumns(db: Db, p: Payload, retries: nat)
    ensures var id := if p.idText.Some? then p.idText.value else "unknown";
            var next := Fail(db, p, retries);
            && (id in db.events && db.events[id].status in {Processed, Failed} ==> next == db)
            && (!(id in db.events && db.events[id].status in {Processed, Failed}) ==>
                  && next.dlq == db.dlq[db.nextDlq := DlqRow(id, retries, None)] && next.nextDlq == db.nextDlq + 1
                  && next.events.Keys == db.events.Keys && next.events - {id} == db.events - {id}
                  && (id in db.events ==> next.events[id] == db.events[id].(status := Failed)))
            && next.customers == db.customers && next.engagement == db.engagement
            && next.outbox == db.outbox && next.nextOutbox == db.nextOutbox
  {}

  /** The four answers to a replay, in the order the endpoint looks for them. */
  lemma ReplayOutcomes(db: Db, d: nat)
    ensures var outcome := ReplayOutcomeOf(db, d);
            && (outcome == NotFound <==> d !in db.dlq)
            && (outcome == AlreadyRequeued <==> d in db.dlq && db.dlq[d].replayedAt != None)
            && (outcome == NotReplayable <==>
                  && d in db.dlq && db.dlq[d].replayedAt == None
                  && (db.dlq[d].eventId in db.events ==> db.events[db.dlq[d].eventId].status in {Pending, Processed}))
            && (outcome == Requeued <==>
                  && d in db.dlq && db.dlq[d].replayedAt == None
                  && db.dlq[d].eventId in db.events && db.events[db.dlq[d].eventId].status == Failed)
  {}

  /** Only a requeued event changes anything: it is pending again, its dead letter stamped, and one row written. */
  lemma ReplayColumns(db: Db, d: nat, now: int)
    ensures var next := Replay(db, d, now);
            && (ReplayOutcomeOf(db, d) != Requeued ==> next == db)
            && (ReplayOutcomeOf(db, d) == Requeued ==>
                  var id := db.dlq[d].eventId;
                  var evt := db.events[id];
                  && next.events == db.events[id := Event(evt.customerId, evt.fact, Pending, None)]
                  && next.dlq == db.dlq[d := DlqRow(id, db.dlq[d].retries, Some(now))] && next.nextDlq == db.nextDlq
                  && next.outbox == db.outbox[db.nextOutbox := OutboxRow(id, now, None, None)]
                  && next.nextOutbox == db.nextOutbox + 1
                  && next.customers == db.customers && next.engagement == db.engagement)
  {}

  // ---------- The outbox ----------

  /** A row is claimable while its event is pending, if it was never published, or more than two minutes ago. */
  lemma ClaimableColumns(db: Db, now: int, locked: set<nat>, o: nat)
    ensures Claimable(db, now, locked, o)
            <==> && o in db.outbox && o !in locked
                 && db.outbox[o].eventId in db.events && db.events[db.outbox[o].eventId].status == Pending
                 && (db.outbox[o].publishedAt.Some? ==> now - db.outbox[o].publishedAt.value > 2 * 60 * 1_000_000)
  {}

  /** A commit deletes what is chosen; of the rest the marked rows get their time and message, the others nothing. */
  lemma CommitColumns(outbox: map<nat, OutboxRow>, marks: map<nat, Mark>, deleted: set<nat>)
    ensures var next := CommitOutbox(outbox, marks, deleted);
            && next.Keys == outbox.Keys - deleted
            && (forall o | o in next && o !in marks :: next[o] == outbox[o])
            && (forall o | o in next && o in marks ::
                  next[o] == OutboxRow(outbox[o].eventId, outbox[o].createdAt, Some(marks[o].at), Some(marks[o].mid)))
  {}

  /** The cleanup chooses the rows older than the cutoff whose event has been processed or has failed. */
  lemma ExpiredColumns(db: Db, cutoff: int, o: nat)
    ensures o in ExpiredRows(db, cutoff)
            <==> && o in db.outbox && db.outbox[o].createdAt < cutoff
                 && db.outbox[o].eventId in db.events
                 && db.events[db.outbox[o].eventId].status in {Processed, Failed}
  {}

  // ---------- The stream ----------

  /** A payload that is an object is passed on; anything else cannot validate, and keeps an identity of its own. */
  lemma DecodeColumns(mid: nat, raw: Raw)
    ensures var p := Decode(mid, raw);
            && (raw.Body? ==> p == raw.p) && (!raw.Body? ==> !p.valid)
            && (raw == NoPayload ==> FiledUnder(p) == "unknown")
            && (raw == NotJson || raw == NotObject ==> FiledUnder(p) == "malformed:" + Digits(mid))
  {}

  lemma {:induction false} DigitsInjective(m: nat, n: nat)
    ensures Digits(m) == Digits(n) ==> m == n
  {
    var a, b := Digits(m), Digits(n);
    if a == b {
      DigitsLong(m);
      DigitsLong(n);
      assert a[|a| - 1] == b[|b| - 1];
      assert m % 10 == n % 10;
      if m >= 10 && n >= 10 {
        assert a[..|a| - 1] == Digits(m / 10) && b[..|b| - 1] == Digits(n / 10);
        DigitsInjective(m / 10, n / 10);
      }
    }
  }

  lemma DigitsLong(n: nat)
    ensures |Digits(n)| >= 1 && (n >= 10 <==> |Digits(n)| >= 2)
  {}

  /** Two poison messages are dead-lettered under one id only if they are one message. */
  lemma PoisonIdentity(m: nat, n: nat)
    ensures FiledUnder(Decode(m, NotJson)) == FiledUnder(Decode(n, NotObject)) <==> m == n
  {
    hide Digits;
    DigitsInjective(m, n);
    var a, b := "malformed:" + Digits(m), "malformed:" + Digits(n);
    assert a[10..] == Digits(m) && b[10..] == Digits(n);
  }

  /** A read hands out the oldest undelivered entries in order, and fewer than asked only if no more are waiting. */
  lemma OldestColumns(b: Stream, n: nat)
    requires Valid(b)
    ensures var ids := Take(Undelivered(b), n);
            && |ids| <= n && Ascending(ids)
            && (forall m | m in ids :: m in b.entries && m !in b.pel)
            && (forall m | m in b.entries && m !in b.pel && m !in ids :: |ids| == n && forall k | k in ids :: k < m)
  {
    UndeliveredExact(b, b.nextId);
    hide UndeliveredBelow;
    var all := Undelivered(b);
    var ids := Take(all, n);
    DropMembers(all, n);
    assert all == ids + Drop(all, n);
    forall m | m in b.entries && m !in b.pel && m !in ids
      ensures |ids| == n && forall k | k in ids :: k < m
    {
      assert m in Drop(all, n);
      var i :| 0 <= i < |Drop(all, n)| && Drop(all, n)[i] == m;
      assert all[|ids| + i] == m;
      assert forall j | 0 <= j < |ids| :: ids[j] == all[j] && all[j] < all[|ids| + i];
    }
  }

  /** What delivering, delivering again and acknowledging do to the pending list and to the entries. */
  lemma StreamColumns(b: Stream, ids: seq<nat>, mid: nat, idle: nat, now: int)
    ensures var next := Deliver(b, ids, now);
            && next.entries == b.entries && next.nextId == b.nextId
            && (forall m :: m in next.pel <==> m in b.pel || m in ids)
            && (forall m | m in next.pel :: next.pel[m] == if m in ids then now else b.pel[m])
    ensures var next := Reclaim(b, ids, now);
            && next.entries == b.entries && next.cursor == b.cursor && next.pel.Keys == b.pel.Keys
            && (forall m | m in b.pel :: next.pel[m] == if m in ids then now else b.pel[m])
    ensures var next := Ack(b, mid);
            && next.entries.Keys == b.entries.Keys - {mid} && next.pel.Keys == b.pel.Keys - {mid}
            && (forall m | m in next.entries :: next.entries[m] == b.entries[m])
            && (forall m | m in next.pel :: next.pel[m] == b.pel[m])
    ensures Idle(b, mid, idle, now) <==> mid in b.pel && now - b.pel[mid] >= idle
  {}

  // ---------- A message ----------

  /**
   * A pending event's message ends with the event processed if a single attempt is spared, and otherwise with the
   * event failed and a dead letter that counts the retries.
   */
  lemma SettledColumns(cfg: Config, db: Db, id: EventId, now: int, faults: seq<bool>)
    requires IsPending(db, id) && db.events[id].customerId in db.customers && |faults| == cfg.maxRetries + 1
    ensures var next := SettleWith(cfg, db, Payload(Some(id), true), now, faults);
            if exists a :: 0 <= a < |faults| && !faults[a] then
              && next.events[id].status == Processed && next.dlq == db.dlq
              && Process(cfg.q, db, Payload(Some(id), true), now) == Ok(next)
            else
              && next.events[id].status == Failed && next.engagement == db.engagement && next.customers == db.customers
              && next.dlq == db.dlq[db.nextDlq := DlqRow(id, cfg.maxRetries, None)]
  {
    hide Absorb, Touch;
  }
}
