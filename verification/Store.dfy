/** The database as an object: each transaction updates the tables in place, and is one function of their contents. */
module Store {
  import opened Types
  import opened Decay
  import opened Scoring
  import opened Database
  import opened Ingestion

  datatype Persisted = Accepted | Duplicate

  /** The response to a batch: counts, and the indices of the rejected items. */
  datatype BatchOut = BatchOut(accepted: nat, duplicates: nat, rejected: seq<nat>)

  datatype Unavailable = PersistFailed

  /** update_channel_breakdown: a copy of the dictionary, with a new entry for the channel. */
  method UpdateChannelBreakdown(breakdown: map<Channel, Tally>, c: Channel, weight: real)
    returns (bd: map<Channel, Tally>)
    ensures bd == UpdateBreakdown(breakdown, c, weight)
    ensures bd.Keys == breakdown.Keys + {c} && bd - {c} == breakdown - {c}
    ensures c in breakdown ==>
              bd[c].count == breakdown[c].count + 1 && bd[c].totalWeight == breakdown[c].totalWeight + weight
    ensures c !in breakdown ==> bd[c] == Tally(1, weight)
  {
    bd := breakdown;
    var entry := if c in bd then bd[c] else Tally(0, 0.0);
    entry := entry.(count := entry.count + 1, totalWeight := entry.totalWeight + weight);
    bd := bd[c := entry];
  }

  /** Indices below `n` whose item failed, in order. */
  function FailedBelow(failing: set<nat>, n: nat): seq<nat> {
    if n == 0 then [] else FailedBelow(failing, n - 1) + (if n - 1 in failing then [n - 1] else [])
  }

  lemma {:induction false} FailedBelowExact(failing: set<nat>, n: nat)
    ensures Ascending(FailedBelow(failing, n))
    ensures forall i: nat :: i in FailedBelow(failing, n) <==> i < n && i in failing
  {
    if n != 0 {
      FailedBelowExact(failing, n - 1);
      var below := FailedBelow(failing, n - 1);
      assert forall i | 0 <= i < |below| :: below[i] in below;
    }
  }

  class Tables {
    var events: map<EventId, Event>
    var customers: map<CustomerId, Customer>
    var engagement: map<CustomerId, Engagement>
    var outbox: map<nat, OutboxRow>
    var dlq: map<nat, DlqRow>
    var nextOutbox: nat
    var nextDlq: nat

    function Contents(): Db
      reads this
    {
      Db(events, customers, engagement, outbox, dlq, nextOutbox, nextDlq)
    }

    constructor (base: map<CustomerId, Customer>)
      ensures Contents() == Db(map[], base, map[], map[], map[], 0, 0)
    {
      events, customers, engagement, outbox, dlq := map[], base, map[], map[], map[];
      nextOutbox, nextDlq := 0, 0;
    }

    /** Return to a savepoint, or to the state before a transaction that is rolled back. */
    method Restore(db: Db)
      modifies this
      ensures Contents() == db
    {
      events, customers, engagement, outbox, dlq := db.events, db.customers, db.engagement, db.outbox, db.dlq;
      nextOutbox, nextDlq := db.nextOutbox, db.nextDlq;
    }

    method EnqueueOutboxRow(id: EventId, now: int)
      modifies this
      ensures Contents() == EnqueueOutbox(old(Contents()), id, now)
    {
      outbox := outbox[nextOutbox := OutboxRow(id, now, None, None)];
      nextOutbox := nextOutbox + 1;
    }

    method Persist(body: EventIn, now: int) returns (outcome: Persisted)
      modifies this
      ensures Contents() == PersistOne(old(Contents()), body, now)
      ensures outcome == if body.eventId in old(events) then Duplicate else Accepted
    {
      if body.customerId !in customers {
        customers := customers[body.customerId := NEW_CUSTOMER];
      }
      if body.eventId in events {
        return Duplicate;
      }
      events := events[body.eventId := Event(body.customerId, body.fact, Pending, None)];
      EnqueueOutboxRow(body.eventId, now);
      return Accepted;
    }

    /**
     * POST /events/batch. `failing` are the items at which the database raises, after any part of the item's work;
     * `commitFails` says whether the final commit raises.
     */
    method IngestBatch(bodies: seq<EventIn>, now: int, failing: set<nat>, commitFails: bool)
      returns (r: Result<BatchOut, Unavailable>)
      modifies this
      ensures commitFails ==> r == Err(PersistFailed) && Contents() == old(Contents())
      ensures !commitFails ==>
                && r.Ok?
                && Contents() == PersistAll(old(Contents()), Survivors(bodies, failing), now)
                && r.value.accepted + r.value.duplicates + |r.value.rejected| == |bodies|
                && r.value.accepted == |events| - |old(events)|
                && r.value.rejected == FailedBelow(failing, |bodies|)
                && Ascending(r.value.rejected)
                && forall i: nat :: i in r.value.rejected <==> i < |bodies| && i in failing
    {
      hide PersistAll, PersistOne, Survivors;
      var before := Contents();
      NoSurvivors(before, failing, now);
      assert bodies[..0] == [];
      var accepted: nat, duplicates: nat, rejected: seq<nat> := 0, 0, [];
      for i := 0 to |bodies|
        invariant Contents() == PersistAll(before, Survivors(bodies[..i], failing), now)
        invariant accepted + duplicates + |rejected| == i
        invariant |events| == |before.events| + accepted
        invariant rejected == FailedBelow(failing, i)
      {
        ghost var s := Survivors(bodies[..i], failing);
        SurvivorStep(bodies, failing, i);
        OneMore(before, s, bodies[i], now);
        var savepoint := Contents();
        var outcome := Persist(bodies[i], now);
        if i in failing {
          Restore(savepoint);
          rejected := rejected + [i];
        } else {
          if outcome == Accepted {
            accepted := accepted + 1;
          } else {
            duplicates := duplicates + 1;
          }
        }
      }
      assert bodies[..|bodies|] == bodies;
      FailedBelowExact(failing, |bodies|);
      if commitFails {
        Restore(before);
        return Err(PersistFailed);
      }
      return Ok(BatchOut(accepted, duplicates, rejected));
    }

    /** process_one_event: the event row, then its customer; one commit. An Err leaves everything as it was. */
    method ProcessOneEvent(q: Factor, p: Payload, now: int) returns (r: Result<(), Rejection>)
      modifies this
      ensures var spec := Process(q, old(Contents()), p, now);
              match spec
              case Ok(db) => r == Ok(()) && Contents() == db
              case Err(e) => r == Err(e) && Contents() == old(Contents())
    {
      if !p.valid || p.idText.None? {
        return Err(InvalidPayload);
      }
      var id := p.idText.value;
      if id !in events {
        return Err(NoDurableRecord);
      }
      var evt := events[id];
      if evt.status == Processed || evt.status == Failed {
        return Ok(());
      }
      if evt.customerId !in customers {
        return Err(NoCustomer);
      }
      var customer := customers[evt.customerId];
      var eng := Lookup(engagement, evt.customerId);
      var ts, weight := evt.fact.ts, Weight(evt.fact);
      var oldTime: Option<int> := if eng.Some? then Some(eng.value.lastUpdated) else None;
      var score := ComputeNewScore(q, if eng.Some? then eng.value.score else 0.0, oldTime, weight, ts);
      var before := if eng.Some? then eng.value.breakdown else map[];
      var breakdown := UpdateChannelBreakdown(before, evt.fact.channel, weight);
      var clock := if oldTime.Some? then Max(ts, oldTime.value) else ts;
      engagement := engagement[evt.customerId := Engagement(score, clock, breakdown)];
      var active := if customer.lastActive.Some? then Max(ts, customer.lastActive.value) else ts;
      customer := customer.(lastActive := Some(active));
      if evt.fact.kind == Purchase {
        customer := customer.(hasConverted := true);
      }
      if evt.fact.kind in {Unsubscribe, Complaint} && evt.fact.channel != Web {
        customer := customer.(optIn := customer.optIn - {evt.fact.channel});
      }
      customers := customers[evt.customerId := customer];
      evt := evt.(status := Processed);
      evt := evt.(processedAt := Some(now));
      events := events[id := evt];
      return Ok(());
    }

    /** fail_event. */
    method FailEvent(p: Payload, retries: nat)
      modifies this
      ensures Contents() == Fail(old(Contents()), p, retries)
    {
      var id := FiledUnder(p);
      if id in events && (events[id].status == Processed || events[id].status == Failed) {
        return;
      }
      dlq := dlq[nextDlq := DlqRow(id, retries, None)];
      nextDlq := nextDlq + 1;
      if id in events {
        events := events[id := events[id].(status := Failed)];
      }
    }

    /** POST /system/dlq/{id}/replay. */
    method ReplayDlq(d: nat, now: int) returns (outcome: ReplayOutcome)
      modifies this
      ensures outcome == ReplayOutcomeOf(old(Contents()), d)
      ensures Contents() == Replay(old(Contents()), d, now)
    {
      if d !in dlq {
        return NotFound;
      }
      var row := dlq[d];
      if row.replayedAt.Some? {
        return AlreadyRequeued;
      }
      if row.eventId !in events || events[row.eventId].status != Failed {
        return NotReplayable;
      }
      events := events[row.eventId := events[row.eventId].(status := Pending, processedAt := None)];
      dlq := dlq[d := row.(replayedAt := Some(now))];
      EnqueueOutboxRow(row.eventId, now);
      return Requeued;
    }

    /** claim_unpublished, with no other transaction holding row locks. */
    method Claim(now: int, limit: nat) returns (rows: seq<nat>)
      ensures rows == ClaimUnpublished(Contents(), now, {}, limit)
    {
      rows := [];
      var o := 0;
      ghost var all := AllClaimable(Contents(), now, {});
      while o < nextOutbox && |rows| < limit
        invariant 0 <= o <= nextOutbox
        invariant rows == ClaimableBelow(Contents(), now, {}, o)
        invariant |rows| <= limit
      {
        if Claimable(Contents(), now, {}, o) {
          rows := rows + [o];
        }
        o := o + 1;
      }
      ClaimablePrefix(Contents(), now, {}, o, nextOutbox);
    }

    method MarkPublished(o: nat, now: int, mid: nat)
      modifies this`outbox
      ensures outbox == if o in old(outbox) then old(outbox)[o := Marked(old(outbox)[o], Mark(now, mid))]
                        else old(outbox)
      ensures o in outbox ==> outbox[o].publishedAt == Some(now) && outbox[o].messageId == Some(mid)
      ensures o in outbox ==>
                outbox[o].eventId == old(outbox)[o].eventId && outbox[o].createdAt == old(outbox)[o].createdAt
    {
      if o in outbox {
        outbox := outbox[o := outbox[o].(publishedAt := Some(now), messageId := Some(mid))];
      }
    }

    method CleanupOutbox(cutoff: int)
      modifies this`outbox
      ensures outbox == CommitOutbox(old(outbox), map[], ExpiredRows(old(Contents()), cutoff))
      ensures forall o | o in old(outbox) ::
                o !in outbox <==>
                  && old(outbox)[o].createdAt < cutoff && old(outbox)[o].eventId in events
                  && events[old(outbox)[o].eventId].status in {Processed, Failed}
      ensures forall o | o in outbox :: o in old(outbox) && outbox[o] == old(outbox)[o]
    {
      outbox := map o |
          o in outbox && !(outbox[o].createdAt < cutoff && IsTerminal(Contents(), outbox[o].eventId)) :: outbox[o];
    }
  }

  lemma NoSurvivors(db: Db, failing: set<nat>, now: int)
    ensures Survivors([], failing) == [] && PersistAll(db, [], now) == db
  {}

  lemma SurvivorStep(bodies: seq<EventIn>, failing: set<nat>, i: nat)
    requires i < |bodies|
    ensures Survivors(bodies[..i + 1], failing)
         == if i in failing then Survivors(bodies[..i], failing) else Survivors(bodies[..i], failing) + [bodies[i]]
  {
    assert bodies[..i + 1][..i] == bodies[..i];
  }

  lemma OneMore(db: Db, done: seq<EventIn>, body: EventIn, now: int)
    ensures var mid := PersistAll(db, done, now);
            && PersistAll(db, done + [body], now) == PersistOne(mid, body, now)
            && |PersistOne(mid, body, now).events| == |mid.events| + (if body.eventId in mid.events then 0 else 1)
  {
    assert (done + [body])[..|done|] == done;
    OneEvent(PersistAll(db, done, now), body, now);
    hide PersistOne;
  }

  lemma {:induction false} ClaimablePrefix(db: Db, now: int, locked: set<nat>, m: nat, n: nat)
    requires m <= n
    ensures ClaimableBelow(db, now, locked, m) <= ClaimableBelow(db, now, locked, n)
  {
    if m < n {
      ClaimablePrefix(db, now, locked, m, n - 1);
    }
  }
}
