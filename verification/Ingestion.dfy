/** Batch ingestion: what a batch amounts to, item failures and duplicates included. */
module Ingestion {
  import opened Types
  import opened Database

  /** The items whose savepoint was released: those at an index that did not fail. */
  function Survivors(bodies: seq<EventIn>, failing: set<nat>): seq<EventIn> {
    if bodies == [] then []
    else
      var n := |bodies| - 1;
      Survivors(bodies[..n], failing) + (if n in failing then [] else [bodies[n]])
  }

  /** The survivors are the items at the indices that did not fail. */
  lemma {:induction false} SurvivorsExactly(bodies: seq<EventIn>, failing: set<nat>, body: EventIn)
    ensures body in Survivors(bodies, failing)
            <==> exists i: nat :: i < |bodies| && i !in failing && bodies[i] == body
  {
    if bodies != [] {
      var n := |bodies| - 1;
      SurvivorsExactly(bodies[..n], failing, body);
      assert forall i: nat | i < n :: bodies[..n][i] == bodies[i];
    }
  }

  function Ids(bodies: seq<EventIn>): set<EventId> {
    set b | b in bodies :: b.eventId
  }

  ghost predicate Counted(db: Db) {
    && (forall o | o in db.outbox :: o < db.nextOutbox)
  }

  /** Which body's event an id stands for after the batch: the first one, unless the id was there before. */
  predicate FirstOf(bodies: seq<EventIn>, i: nat) {
    i < |bodies| && forall j | 0 <= j < i :: bodies[j].eventId != bodies[i].eventId
  }

  lemma OneEvent(db: Db, body: EventIn, now: int)
    ensures var next := PersistOne(db, body, now);
            if body.eventId in db.events then next.events == db.events && next.outbox == db.outbox
                && next.nextOutbox == db.nextOutbox
            else
              && next.events == db.events[body.eventId := Event(body.customerId, body.fact, Pending, None)]
              && next.outbox == db.outbox[db.nextOutbox := OutboxRow(body.eventId, now, None, None)]
              && next.nextOutbox == db.nextOutbox + 1
  {}

  lemma IdsGrow(bodies: seq<EventIn>)
    requires bodies != []
    ensures Ids(bodies) == Ids(bodies[..|bodies| - 1]) + {bodies[|bodies| - 1].eventId}
  {
    var n := |bodies| - 1;
    assert bodies == bodies[..n] + [bodies[n]];
  }

  /** Old events are untouched, and the new ones are exactly the batch's ids. */
  lemma {:induction false} BatchKeys(db: Db, bodies: seq<EventIn>, now: int)
    ensures var next := PersistAll(db, bodies, now);
            && next.events.Keys == db.events.Keys + Ids(bodies)
            && (forall id | id in db.events :: next.events[id] == db.events[id])
  {
    hide PersistOne, Ids;
    if bodies == [] {
      assert Ids([]) == {} by { IdsOfNone(); }
    } else {
      var n := |bodies| - 1;
      BatchKeys(db, bodies[..n], now);
      OneEvent(PersistAll(db, bodies[..n], now), bodies[n], now);
      IdsGrow(bodies);
    }
  }

  lemma IdsOfNone()
    ensures Ids([]) == {}
  {}

  /** A new id stands for its first surviving body. */
  lemma {:induction false} BatchFirstWins(db: Db, bodies: seq<EventIn>, now: int, i: nat)
    requires FirstOf(bodies, i) && bodies[i].eventId !in db.events
    ensures Lookup(PersistAll(db, bodies, now).events, bodies[i].eventId)
         == Some(Event(bodies[i].customerId, bodies[i].fact, Pending, None))
  {
    hide PersistOne;
    var n := |bodies| - 1;
    var init, last := bodies[..n], bodies[n];
    var mid := PersistAll(db, init, now);
    OneEvent(mid, last, now);
    BatchKeys(db, init, now);
    if i < n {
      BatchFirstWins(db, init, now, i);
    } else {
      assert forall j | 0 <= j < n :: init[j] == bodies[j];
    }
  }

  function RowsOf(before: map<nat, OutboxRow>, after: map<nat, OutboxRow>, id: EventId): set<nat> {
    set o | o in after && o !in before && after[o].eventId == id
  }

  lemma RowsOfInsert(before: map<nat, OutboxRow>, mid: map<nat, OutboxRow>, o: nat, row: OutboxRow, id: EventId)
    requires o !in before && o !in mid
    ensures |RowsOf(before, mid[o := row], id)| == |RowsOf(before, mid, id)| + (if row.eventId == id then 1 else 0)
  {
    if row.eventId == id {
      assert RowsOf(before, mid[o := row], id) == RowsOf(before, mid, id) + {o};
    } else {
      assert RowsOf(before, mid[o := row], id) == RowsOf(before, mid, id);
    }
  }

  /** Outbox rows: the old ones stay, and every new event, and nothing else, gets exactly one unpublished row. */
  lemma {:induction false} BatchRows(db: Db, bodies: seq<EventIn>, now: int, id: EventId)
    requires Counted(db)
    ensures var next := PersistAll(db, bodies, now);
            && Counted(next) && db.nextOutbox <= next.nextOutbox
            && (forall o | o in db.outbox :: o in next.outbox && next.outbox[o] == db.outbox[o])
            && (forall o | o in next.outbox && o !in db.outbox ::
                next.outbox[o] == OutboxRow(next.outbox[o].eventId, now, None, None))
            && |RowsOf(db.outbox, next.outbox, id)| == if id in Ids(bodies) && id !in db.events then 1 else 0
  {
    hide PersistOne, Ids, RowsOf;
    if bodies == [] {
      IdsOfNone();
      NoRowsYet(db.outbox, id);
    } else {
      var n := |bodies| - 1;
      var mid := PersistAll(db, bodies[..n], now);
      BatchRows(db, bodies[..n], now, id);
      BatchKeys(db, bodies[..n], now);
      OneEvent(mid, bodies[n], now);
      IdsGrow(bodies);
      if bodies[n].eventId !in mid.events {
        RowsOfInsert(db.outbox, mid.outbox, mid.nextOutbox, OutboxRow(bodies[n].eventId, now, None, None), id);
      }
    }
  }

  lemma NoRowsYet(outbox: map<nat, OutboxRow>, id: EventId)
    ensures RowsOf(outbox, outbox, id) == {}
  {}

  lemma {:induction false} SurvivorsSize(bodies: seq<EventIn>, failing: set<nat>)
    ensures |Survivors(bodies, failing)| + |set i: nat | i < |bodies| && i in failing| == |bodies|
  {
    if bodies != [] {
      var n := |bodies| - 1;
      SurvivorsSize(bodies[..n], failing);
      var before, all := set i: nat | i < n && i in failing, set i: nat | i < |bodies| && i in failing;
      assert all == if n in failing then before + {n} else before;
    }
  }
}
