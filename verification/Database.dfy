/** The PostgreSQL side of the pipeline: every transaction as a function from the committed state to the next. */
module Database {
  import opened Types
  import opened Decay
  import opened Scoring

  datatype Db = Db(
    events: map<EventId, Event>,
    customers: map<CustomerId, Customer>,
    engagement: map<CustomerId, Engagement>,
    outbox: map<nat, OutboxRow>,
    dlq: map<nat, DlqRow>,
    nextOutbox: nat,
    nextDlq: nat)

  /** A published row whose event is still pending is offered again after two minutes. */
  const RETRY_AFTER: int := 120_000_000

  predicate IsPending(db: Db, id: EventId) {
    id in db.events && db.events[id].status == Pending
  }

  predicate IsTerminal(db: Db, id: EventId) {
    id in db.events && db.events[id].status != Pending
  }

  // ---------- Ingestion ----------

  const NEW_CUSTOMER := Customer({}, None, false)

  function EnqueueOutbox(db: Db, id: EventId, now: int): Db {
    db.(outbox := db.outbox[db.nextOutbox := OutboxRow(id, now, None, None)], nextOutbox := db.nextOutbox + 1)
  }

  function EnsureCustomer(db: Db, c: CustomerId): Db {
    if c in db.customers then db else db.(customers := db.customers[c := NEW_CUSTOMER])
  }

  /** Insert the customer and the event unless they exist; a new event brings its outbox row. */
  function PersistOne(db: Db, body: EventIn, now: int): Db {
    var ready := EnsureCustomer(db, body.customerId);
    if body.eventId in ready.events then ready
    else
      EnqueueOutbox(ready.(events := ready.events[body.eventId := Event(body.customerId, body.fact, Pending, None)]),
                    body.eventId, now)
  }

  function PersistAll(db: Db, bodies: seq<EventIn>, now: int): Db {
    if bodies == [] then db
    else PersistOne(PersistAll(db, bodies[..|bodies| - 1], now), bodies[|bodies| - 1], now)
  }

  // ---------- The worker's two transactions ----------

  datatype Rejection = InvalidPayload | NoDurableRecord | NoCustomer

  function Touch(c: Customer, f: Fact): Customer {
    Customer(
      if f.kind in {Unsubscribe, Complaint} && f.channel != Web then c.optIn - {f.channel} else c.optIn,
      Some(if c.lastActive.Some? then Max(f.ts, c.lastActive.value) else f.ts),
      c.hasConverted || f.kind == Purchase)
  }

  function ApplyEvent(q: Factor, db: Db, id: EventId, now: int): Db
    requires id in db.events && db.events[id].customerId in db.customers
  {
    var evt := db.events[id];
    var c := evt.customerId;
    db.(engagement := db.engagement[c := Absorb(q, Lookup(db.engagement, c), evt.fact)],
        customers := db.customers[c := Touch(db.customers[c], evt.fact)],
        events := db.events[id := evt.(status := Processed, processedAt := Some(now))])
  }

  /** process_one_event: an exception is an Err, and nothing is committed then. */
  function Process(q: Factor, db: Db, p: Payload, now: int): Result<Db, Rejection> {
    if !p.valid || p.idText.None? then Err(InvalidPayload)
    else if p.idText.value !in db.events then Err(NoDurableRecord)
    else
      var id := p.idText.value;
      if db.events[id].status != Pending then Ok(db)
      else if db.events[id].customerId !in db.customers then Err(NoCustomer)
      else Ok(ApplyEvent(q, db, id, now))
  }

  function AddDlq(db: Db, id: EventId, retries: nat): Db {
    db.(dlq := db.dlq[db.nextDlq := DlqRow(id, retries, None)], nextDlq := db.nextDlq + 1)
  }

  function MarkFailed(db: Db, id: EventId): Db
    requires id in db.events
  {
    db.(events := db.events[id := db.events[id].(status := Failed)])
  }

  /** fail_event: a terminal event is left alone; an id without a durable event still gets its row. */
  function Fail(db: Db, p: Payload, retries: nat): Db {
    var id := FiledUnder(p);
    if IsTerminal(db, id) then db
    else
      var filed := AddDlq(db, id, retries);
      if id in filed.events then MarkFailed(filed, id) else filed
  }

  // ---------- Replay ----------

  datatype ReplayOutcome = NotFound | AlreadyRequeued | NotReplayable | Requeued

  function ReplayOutcomeOf(db: Db, d: nat): ReplayOutcome {
    if d !in db.dlq then NotFound
    else if db.dlq[d].replayedAt.Some? then AlreadyRequeued
    else if db.dlq[d].eventId !in db.events || db.events[db.dlq[d].eventId].status != Failed then NotReplayable
    else Requeued
  }

  function Requeue(db: Db, d: nat, now: int): Db
    requires d in db.dlq && db.dlq[d].eventId in db.events
  {
    var id := db.dlq[d].eventId;
    EnqueueOutbox(db.(events := db.events[id := db.events[id].(status := Pending, processedAt := None)],
                      dlq := db.dlq[d := db.dlq[d].(replayedAt := Some(now))]), id, now)
  }

  function Replay(db: Db, d: nat, now: int): Db {
    if ReplayOutcomeOf(db, d) == Requeued then Requeue(db, d, now) else db
  }

  // ---------- The outbox ----------

  /** A row the claim query selects: pending event, never published or published too long ago, not locked. */
  predicate Claimable(db: Db, now: int, locked: set<nat>, o: nat) {
    && o in db.outbox && o !in locked
    && IsPending(db, db.outbox[o].eventId)
    && (db.outbox[o].publishedAt.None? || db.outbox[o].publishedAt.value < now - RETRY_AFTER)
  }

  /** All claimable rows with id below `n`, in id order. */
  function ClaimableBelow(db: Db, now: int, locked: set<nat>, n: nat): seq<nat> {
    if n == 0 then []
    else ClaimableBelow(db, now, locked, n - 1) + (if Claimable(db, now, locked, n - 1) then [n - 1] else [])
  }

  function AllClaimable(db: Db, now: int, locked: set<nat>): seq<nat> {
    ClaimableBelow(db, now, locked, db.nextOutbox)
  }

  function ClaimUnpublished(db: Db, now: int, locked: set<nat>, limit: nat): seq<nat> {
    Take(AllClaimable(db, now, locked), limit)
  }

  /** A row the cleanup deletes: past retention, and its event is terminal. */
  predicate Expired(db: Db, cutoff: int, o: nat) {
    o in db.outbox && db.outbox[o].createdAt < cutoff && IsTerminal(db, db.outbox[o].eventId)
  }

  function ExpiredRows(db: Db, cutoff: int): set<nat> {
    set o | o in db.outbox && Expired(db, cutoff, o)
  }

  datatype Mark = Mark(at: int, mid: nat)

  function Marked(row: OutboxRow, k: Mark): OutboxRow {
    row.(publishedAt := Some(k.at), messageId := Some(k.mid))
  }

  /** What a reconcile commits: its publication marks, and the rows its cleanup deleted. */
  function CommitOutbox(outbox: map<nat, OutboxRow>, marks: map<nat, Mark>, deleted: set<nat>): map<nat, OutboxRow> {
    map o | o in outbox && o !in deleted :: if o in marks then Marked(outbox[o], marks[o]) else outbox[o]
  }

  // ---------- Facts about the claim query ----------

  lemma {:induction false} ClaimableBelowExact(db: Db, now: int, locked: set<nat>, n: nat)
    ensures forall o: nat :: o in ClaimableBelow(db, now, locked, n) <==> o < n && Claimable(db, now, locked, o)
    ensures Ascending(ClaimableBelow(db, now, locked, n))
  {
    if n != 0 {
      ClaimableBelowExact(db, now, locked, n - 1);
      var below := ClaimableBelow(db, now, locked, n - 1);
      assert forall i | 0 <= i < |below| :: below[i] in below;
    }
  }

  /** The claim takes the oldest claimable rows, each once, in id order, up to the limit and no fewer. */
  lemma ClaimIsOldestFirst(db: Db, now: int, locked: set<nat>, limit: nat)
    requires forall o | o in db.outbox :: o < db.nextOutbox
    ensures var claim := ClaimUnpublished(db, now, locked, limit);
            && |claim| <= limit
            && Ascending(claim)
            && (forall o | o in claim :: Claimable(db, now, locked, o))
            && (forall o: nat | Claimable(db, now, locked, o) && o !in claim ::
                  |claim| == limit && forall p | p in claim :: p < o)
  {
    var all := AllClaimable(db, now, locked);
    ClaimableBelowExact(db, now, locked, db.nextOutbox);
    var claim := ClaimUnpublished(db, now, locked, limit);
    assert forall j | 0 <= j < |claim| :: all[j] == claim[j] && claim[j] in claim;
    forall o: nat | Claimable(db, now, locked, o) && o !in claim
      ensures |claim| == limit && forall p | p in claim :: p < o
    {
      assert o in all;
      var i :| 0 <= i < |all| && all[i] == o;
      forall p | p in claim ensures p < o {
        var j :| 0 <= j < |claim| && claim[j] == p;
        assert all[j] == p;
      }
    }
  }

  // ---------- Referential integrity ----------

  ghost predicate WellFormed(db: Db) {
    && (forall id | id in db.events :: db.events[id].customerId in db.customers)
    && (forall o | o in db.outbox :: o < db.nextOutbox && db.outbox[o].eventId in db.events)
    && (forall d | d in db.dlq :: d < db.nextDlq)
    && db.engagement.Keys <= db.customers.Keys
  }

  lemma PersistOneWellFormed(db: Db, body: EventIn, now: int)
    requires WellFormed(db)
    ensures WellFormed(PersistOne(db, body, now))
  {}

  lemma {:induction false} PersistAllWellFormed(db: Db, bodies: seq<EventIn>, now: int)
    requires WellFormed(db)
    ensures WellFormed(PersistAll(db, bodies, now))
  {
    if bodies != [] {
      var init := bodies[..|bodies| - 1];
      PersistAllWellFormed(db, init, now);
      PersistOneWellFormed(PersistAll(db, init, now), bodies[|bodies| - 1], now);
    }
  }
}
