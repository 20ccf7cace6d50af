/** Exactly-once effects: what the customer-facing tables hold is a function of the set of processed events. */
module Effects {
  import opened Types
  import opened Decay
  import opened Scoring
  import opened Database

  /** The processed events of one customer. */
  ghost function DoneBy(events: map<EventId, Event>, c: CustomerId): map<EventId, Fact> {
    map id | id in events && events[id].customerId == c && events[id].status == Processed :: events[id].fact
  }

  predicate Revokes(f: Fact, ch: Channel) {
    f.channel == ch && f.kind in {Unsubscribe, Complaint} && ch != Web
  }

  ghost predicate ActivityMatches(base: Option<int>, done: map<EventId, Fact>, last: Option<int>) {
    && (base.Some? ==> last.Some? && base.value <= last.value)
    && (forall id | id in done :: last.Some? && done[id].ts <= last.value)
    && (last.Some? ==> last == base || exists id :: id in done && done[id].ts == last.value)
  }

  /** The customer row: the profile it started from, changed by exactly the processed events. */
  ghost predicate ProfileMatches(base: Customer, done: map<EventId, Fact>, c: Customer) {
    && (forall ch: Channel :: ch in c.optIn <==> ch in base.optIn && !exists id :: id in done && Revokes(done[id], ch))
    && (c.hasConverted <==> base.hasConverted || exists id :: id in done && done[id].kind == Purchase)
    && ActivityMatches(base.lastActive, done, c.lastActive)
  }

  ghost predicate EngagementMatches(q: Factor, done: map<EventId, Fact>, eng: Option<Engagement>) {
    match eng
    case None => done == map[]
    case Some(e) => Summarizes(q, done, e)
  }

  /** The profile a customer started from: a row that existed at first, or the defaults of ingestion. */
  function BaseOf(base: map<CustomerId, Customer>, c: CustomerId): Customer {
    if c in base then base[c] else NEW_CUSTOMER
  }

  ghost predicate CustomerExact(q: Factor, base: map<CustomerId, Customer>, db: Db, c: CustomerId)
    requires c in db.customers
  {
    && EngagementMatches(q, DoneBy(db.events, c), Lookup(db.engagement, c))
    && ProfileMatches(BaseOf(base, c), DoneBy(db.events, c), db.customers[c])
  }

  ghost predicate EffectsExact(q: Factor, base: map<CustomerId, Customer>, db: Db) {
    && base.Keys <= db.customers.Keys
    && forall c | c in db.customers :: CustomerExact(q, base, db, c)
  }

  lemma TouchMatches(base: Customer, done: map<EventId, Fact>, c: Customer, id: EventId, f: Fact)
    requires id !in done && ProfileMatches(base, done, c)
    ensures ProfileMatches(base, done[id := f], Touch(c, f))
  {
    var all := done[id := f];
    assert all[id] == f && forall k | k in done :: k in all && all[k] == done[k];
    var next := Touch(c, f);
    forall ch: Channel
      ensures ch in next.optIn <==> ch in base.optIn && !exists k :: k in all && Revokes(all[k], ch)
    {
      if k :| k in done && Revokes(done[k], ch) { assert Revokes(all[k], ch); }
    }
    assert next.hasConverted <==> base.hasConverted || exists k :: k in all && all[k].kind == Purchase by {
      if k :| k in done && done[k].kind == Purchase { assert all[k].kind == Purchase; }
    }
    assert ActivityMatches(base.lastActive, all, next.lastActive) by {
      if k :| k in done && c.lastActive.Some? && done[k].ts == c.lastActive.value {
        assert all[k].ts == c.lastActive.value;
      }
    }
  }

  lemma DoneByApply(q: Factor, db: Db, id: EventId, now: int, c: CustomerId)
    requires IsPending(db, id) && db.events[id].customerId in db.customers
    ensures id !in DoneBy(db.events, c)
    ensures DoneBy(ApplyEvent(q, db, id, now).events, c)
            == if c == db.events[id].customerId then DoneBy(db.events, c)[id := db.events[id].fact]
               else DoneBy(db.events, c)
  {}

  /** Processing a pending event keeps every customer's rows exact. */
  lemma ApplyKeepsEffects(q: Factor, base: map<CustomerId, Customer>, db: Db, id: EventId, now: int)
    requires EffectsExact(q, base, db) && IsPending(db, id) && db.events[id].customerId in db.customers
    ensures EffectsExact(q, base, ApplyEvent(q, db, id, now))
  {
    hide Absorb;
    hide Summarizes;
    hide ProfileMatches;
    hide Touch;
    hide DoneBy;
    var next := ApplyEvent(q, db, id, now);
    forall c | c in next.customers
      ensures CustomerExact(q, base, next, c)
    {
      var done := DoneBy(db.events, c);
      DoneByApply(q, db, id, now, c);
      assert CustomerExact(q, base, db, c);
      if c == db.events[id].customerId {
        AbsorbSummarizes(q, done, Lookup(db.engagement, c), id, db.events[id].fact);
        TouchMatches(BaseOf(base, c), done, db.customers[c], id, db.events[id].fact);
      }
    }
  }

  /** A transaction that processes nothing and rewrites no customer keeps every row exact. */
  lemma OthersKeepEffects(q: Factor, base: map<CustomerId, Customer>, db: Db, next: Db)
    requires EffectsExact(q, base, db) && WellFormed(db)
    requires next.engagement == db.engagement
    requires db.customers.Keys <= next.customers.Keys
    requires forall c | c in next.customers ::
        next.customers[c] == if c in db.customers then db.customers[c] else NEW_CUSTOMER
    requires forall c :: DoneBy(next.events, c) == DoneBy(db.events, c)
    ensures EffectsExact(q, base, next)
  {
    forall c | c in next.customers
      ensures CustomerExact(q, base, next, c)
    {
      if c in db.customers {
        assert CustomerExact(q, base, db, c);
      } else {
        assert DoneBy(db.events, c) == map[];
      }
    }
  }

  /** The transactions that process nothing leave the set of processed events alone. */
  lemma PersistProcessesNothing(db: Db, body: EventIn, now: int, c: CustomerId)
    ensures DoneBy(PersistOne(db, body, now).events, c) == DoneBy(db.events, c)
  {
    assert body.eventId !in db.events ==>
        PersistOne(db, body, now).events == db.events[body.eventId := Event(body.customerId, body.fact, Pending, None)];
    hide PersistOne;
  }

  lemma FailProcessesNothing(db: Db, p: Payload, retries: nat, c: CustomerId)
    ensures DoneBy(Fail(db, p, retries).events, c) == DoneBy(db.events, c)
  {}

  lemma ReplayProcessesNothing(db: Db, d: nat, now: int, c: CustomerId)
    ensures DoneBy(Replay(db, d, now).events, c) == DoneBy(db.events, c)
  {}

  lemma PersistKeepsEffects(q: Factor, base: map<CustomerId, Customer>, db: Db, body: EventIn, now: int)
    requires EffectsExact(q, base, db) && WellFormed(db)
    ensures EffectsExact(q, base, PersistOne(db, body, now))
  {
    hide EffectsExact, DoneBy, WellFormed;
    forall c { PersistProcessesNothing(db, body, now, c); }
    OthersKeepEffects(q, base, db, PersistOne(db, body, now));
  }

  lemma FailKeepsEffects(q: Factor, base: map<CustomerId, Customer>, db: Db, p: Payload, retries: nat)
    requires EffectsExact(q, base, db) && WellFormed(db)
    ensures EffectsExact(q, base, Fail(db, p, retries))
  {
    hide EffectsExact, DoneBy, WellFormed;
    forall c { FailProcessesNothing(db, p, retries, c); }
    OthersKeepEffects(q, base, db, Fail(db, p, retries));
  }

  lemma ReplayKeepsEffects(q: Factor, base: map<CustomerId, Customer>, db: Db, d: nat, now: int)
    requires EffectsExact(q, base, db) && WellFormed(db)
    ensures EffectsExact(q, base, Replay(db, d, now))
  {
    hide EffectsExact, DoneBy, WellFormed;
    forall c { ReplayProcessesNothing(db, d, now, c); }
    OthersKeepEffects(q, base, db, Replay(db, d, now));
  }

  lemma SameTablesKeepEffects(q: Factor, base: map<CustomerId, Customer>, db: Db, next: Db)
    requires EffectsExact(q, base, db)
    requires next.events == db.events && next.customers == db.customers && next.engagement == db.engagement
    ensures EffectsExact(q, base, next)
  {
    forall c | c in next.customers ensures CustomerExact(q, base, next, c) {
      assert CustomerExact(q, base, db, c);
    }
  }

  lemma ProcessKeepsEffects(q: Factor, base: map<CustomerId, Customer>, db: Db, p: Payload, now: int)
    requires EffectsExact(q, base, db) && Process(q, db, p, now).Ok?
    ensures EffectsExact(q, base, Process(q, db, p, now).value)
  {
    if db.events[p.idText.value].status == Pending {
      ApplyKeepsEffects(q, base, db, p.idText.value, now);
    }
  }

  /** Two databases that have processed the same events of a customer agree on every derived column. */
  lemma SameEventsSameRows(q: Factor, base: map<CustomerId, Customer>, a: Db, b: Db, c: CustomerId)
    requires EffectsExact(q, base, a) && EffectsExact(q, base, b)
    requires c in a.customers && c in b.customers
    requires DoneBy(a.events, c) == DoneBy(b.events, c)
    ensures Lookup(a.engagement, c) == Lookup(b.engagement, c)
    ensures a.customers[c] == b.customers[c]
  {
    var done := DoneBy(a.events, c);
    assert CustomerExact(q, base, a, c) && CustomerExact(q, base, b, c);
    var ea, eb := Lookup(a.engagement, c), Lookup(b.engagement, c);
    if ea.Some? && eb.Some? {
      SummaryUnique(q, done, ea.value, eb.value);
    }
    ProfileUnique(BaseOf(base, c), done, a.customers[c], b.customers[c]);
  }

  lemma ProfileUnique(base: Customer, done: map<EventId, Fact>, a: Customer, b: Customer)
    requires ProfileMatches(base, done, a) && ProfileMatches(base, done, b)
    ensures a == b
  {
    assert a.optIn == b.optIn;
  }
}
