/** Audience previews: who is eligible, how the batched loop ranks them, and what consent means over whole runs. */
module Audience {
  import opened Types
  import opened Decay
  import opened Scoring
  import opened Database
  import opened Effects
  import opened Ranking
  import opened TopK
  import P = Pipeline
  import R = Runs
  import C = Confluence

  const DAY: int := 86_400_000_000

  datatype Filters = Filters(minScore: Option<real>, minLastActive: Option<int>, hasConverted: Option<bool>)

  /** The consent flag that a channel is checked against; web previews use the email flag. */
  function ConsentFlag(ch: Channel): Channel {
    if ch == Web then Email else ch
  }

  /** A processed send to the customer on the channel in the 24 hours up to `now`. */
  predicate RecentSend(db: Db, c: CustomerId, ch: Channel, now: int) {
    exists id | id in db.events ::
      && db.events[id].customerId == c && db.events[id].status == Processed
      && db.events[id].fact.channel == ch && db.events[id].fact.kind == Send
      && now - DAY <= db.events[id].fact.ts <= now
  }

  /** The WHERE clause of the candidate query. A comparison with a missing last activity is not true. */
  predicate Eligible(db: Db, ch: Channel, now: int, f: Filters, c: CustomerId) {
    && c in db.customers
    && ConsentFlag(ch) in db.customers[c].optIn
    && !RecentSend(db, c, ch, now)
    && (f.minLastActive.Some? ==>
          db.customers[c].lastActive.Some? && f.minLastActive.value <= db.customers[c].lastActive.value)
    && (f.hasConverted.Some? ==> db.customers[c].hasConverted == f.hasConverted.value)
  }

  datatype Row = Row(customerId: CustomerId, rawScore: real, attributes: Attributes, updated: Option<int>)

  /** The outer join: a customer without an engagement row reads as score zero without a clock. */
  predicate RowMatches(db: Db, row: Row) {
    match Lookup(db.engagement, row.customerId)
    case None => row.rawScore == 0.0 && row.updated == None
    case Some(e) => row.rawScore == e.score && row.updated == Some(e.lastUpdated)
  }

  function Flatten(batches: seq<seq<Row>>): seq<Row> {
    if batches == [] then [] else Flatten(batches[..|batches| - 1]) + batches[|batches| - 1]
  }

  /** What the query streams: each eligible customer's row once, in whatever order and partition. */
  ghost predicate Streams(db: Db, ch: Channel, now: int, f: Filters, batches: seq<seq<Row>>) {
    var rows := Flatten(batches);
    && (forall i, j | 0 <= i < j < |rows| :: rows[i].customerId != rows[j].customerId)
    && (forall row | row in rows :: RowMatches(db, row) && Eligible(db, ch, now, f, row.customerId))
    && (forall c | Eligible(db, ch, now, f, c) :: exists row :: row in rows && row.customerId == c)
  }

  function Scored(q: Factor, row: Row, now: int): ScoredCustomer {
    ScoredCustomer(ScoreAt(q, row.rawScore, row.updated, now), row.customerId, row.attributes)
  }

  predicate Passes(minScore: Option<real>, e: ScoredCustomer) {
    minScore.Some? ==> minScore.value <= e.score
  }

  /** The rows that survive the score filter, scored at one reference time. */
  function Ranked(q: Factor, rows: seq<Row>, minScore: Option<real>, now: int): seq<ScoredCustomer> {
    if rows == [] then []
    else
      var e := Scored(q, rows[|rows| - 1], now);
      Ranked(q, rows[..|rows| - 1], minScore, now) + (if Passes(minScore, e) then [e] else [])
  }

  lemma RankedStep(q: Factor, rows: seq<Row>, row: Row, minScore: Option<real>, now: int)
    ensures Ranked(q, rows + [row], minScore, now)
         == if Passes(minScore, Scored(q, row, now)) then Ranked(q, rows, minScore, now) + [Scored(q, row, now)]
            else Ranked(q, rows, minScore, now)
  {
    hide ScoreAt;
    assert (rows + [row])[..|rows|] == rows;
  }

  lemma FlattenStep(batches: seq<seq<Row>>, b: nat)
    requires b < |batches|
    ensures Flatten(batches[..b + 1]) == Flatten(batches[..b]) + batches[b]
  {
    assert batches[..b + 1][..b] == batches[..b];
  }

  /** One surviving row: pushed while there is room, in place of the root when better, else let go. */
  method Offer(heap: MinHeap, entry: ScoredCustomer, size: nat, ghost dropped: seq<ScoredCustomer>,
               ghost seen: seq<ScoredCustomer>)
    returns (ghost gone: seq<ScoredCustomer>)
    requires 1 <= size && heap.Valid() && Keeps(heap.items, dropped, seen, size) && heap.peak <= size
    modifies heap
    ensures heap.Valid() && Keeps(heap.items, gone, seen + [entry], size) && heap.peak <= size
  {
    ghost var before := heap.items;
    if |heap.items| < size {
      heap.Push(entry);
      KeepsMore(before, dropped, seen, size, entry, heap.items, []);
      gone := dropped + [];
    } else if Below(heap.items[0], entry) {
      var least := heap.Replace(entry);
      RootLeaves(before, dropped, seen, size, entry, heap.items);
      gone := dropped + [before[0]];
    } else {
      NewcomerLeaves(before, dropped, seen, size, entry);
      gone := dropped + [entry];
    }
  }

  /** One batch of rows. */
  method ScanBatch(q: Factor, heap: MinHeap, batch: seq<Row>, minScore: Option<real>, size: nat, now: int,
                   ghost dropped: seq<ScoredCustomer>, ghost rows: seq<Row>)
    returns (ghost gone: seq<ScoredCustomer>)
    requires 1 <= size && heap.Valid() && Keeps(heap.items, dropped, Ranked(q, rows, minScore, now), size)
    requires heap.peak <= size
    modifies heap
    ensures heap.Valid() && Keeps(heap.items, gone, Ranked(q, rows + batch, minScore, now), size)
    ensures heap.peak <= size
  {
    hide Keeps, Ranked, ScoreAt;
    gone := dropped;
    assert rows + batch[..0] == rows;
    for i := 0 to |batch|
      invariant heap.Valid() && Keeps(heap.items, gone, Ranked(q, rows + batch[..i], minScore, now), size)
      invariant heap.peak <= size
    {
      var entry := Scored(q, batch[i], now);
      assert rows + batch[..i + 1] == (rows + batch[..i]) + [batch[i]];
      RankedStep(q, rows + batch[..i], batch[i], minScore, now);
      if Passes(minScore, entry) {
        gone := Offer(heap, entry, size, gone, Ranked(q, rows + batch[..i], minScore, now));
      }
    }
    assert batch[..|batch|] == batch;
  }

  /**
   * The loops of recommend_audience. The same rows in any split give the same ranking, and it is the one that
   * select_top_k computes on the surviving rows.
   */
  method RecommendAudience(q: Factor, batches: seq<seq<Row>>, minScore: Option<real>, size: nat, now: int)
    returns (top: seq<ScoredCustomer>, ghost peak: nat)
    requires 1 <= size
    ensures peak <= size  // the heap never held more
    ensures BestOf(top, Ranked(q, Flatten(batches), minScore, now), size)
    ensures Keys(top) == Ranking.TopK(Keys(Ranked(q, Flatten(batches), minScore, now)), size)
    ensures multiset(top) <= multiset(Ranked(q, Flatten(batches), minScore, now))
  {
    hide SortEntries, SortDescending, Ranked, BestOf;
    var heap := new MinHeap();
    ghost var dropped: seq<ScoredCustomer> := [];
    assert batches[..0] == [];
    assert Ranked(q, [], minScore, now) == [] by { NothingRanked(q, minScore, now); }
    for b := 0 to |batches|
      invariant fresh(heap) && heap.Valid() && heap.peak <= size
      invariant Keeps(heap.items, dropped, Ranked(q, Flatten(batches[..b]), minScore, now), size)
    {
      FlattenStep(batches, b);
      dropped := ScanBatch(q, heap, batches[b], minScore, size, now, dropped, Flatten(batches[..b]));
    }
    assert batches[..|batches|] == batches;
    KeptIsTopK(heap.items, dropped, Ranked(q, Flatten(batches), minScore, now), size);
    top, peak := SortEntries(heap.items), heap.peak;
    TopKIsBest(top, Ranked(q, Flatten(batches), minScore, now), size);
  }

  lemma NothingRanked(q: Factor, minScore: Option<real>, now: int)
    ensures Ranked(q, [], minScore, now) == []
  {}

  // ---------- What a preview returns ----------

  /** What is ranked: the streamed rows whose displayed score is no less than the asked minimum, and no others. */
  lemma {:induction false} RankedExactly(q: Factor, rows: seq<Row>, minScore: Option<real>, now: int, e: ScoredCustomer)
    ensures e in Ranked(q, rows, minScore, now)
            <==> && (minScore.Some? ==> e.score >= minScore.value)
                 && exists row :: row in rows && e.customerId == row.customerId && e.attributes == row.attributes
                                  && e.score == ScoreAt(q, row.rawScore, row.updated, now)
  {
    hide ScoreAt;
    if rows != [] {
      var n := |rows| - 1;
      RankedExactly(q, rows[..n], minScore, now, e);
      assert rows == rows[..n] + [rows[n]];
    }
  }

  /** Everybody a preview returns is eligible, with the score displayed now, and passes the score filter. */
  lemma PreviewIsEligible(q: Factor, db: Db, ch: Channel, now: int, f: Filters, batches: seq<seq<Row>>,
                          top: seq<ScoredCustomer>, e: ScoredCustomer)
    requires Streams(db, ch, now, f, batches)
    requires multiset(top) <= multiset(Ranked(q, Flatten(batches), f.minScore, now)) && e in top
    ensures Eligible(db, ch, now, f, e.customerId) && (f.minScore.Some? ==> f.minScore.value <= e.score)
  {
    hide Eligible, ScoreAt;
    assert e in multiset(top);
    assert e in multiset(Ranked(q, Flatten(batches), f.minScore, now));
    RankedExactly(q, Flatten(batches), f.minScore, now, e);
  }

  /** An unsubscribe or complaint by which a preview for the channel must leave the customer out. */
  predicate Withdraws(f: Fact, ch: Channel) {
    && (f.kind == Unsubscribe || f.kind == Complaint)
    && match ch
       case Email => f.channel == Email
       case Sms => f.channel == Sms
       case Whatsapp => f.channel == Whatsapp
       case Push => f.channel == Push
       case Web => f.channel == Email
  }

  /** The candidate query, column by column; a day in microseconds. */
  lemma EligibleColumns(db: Db, ch: Channel, now: int, f: Filters, c: CustomerId)
    ensures Eligible(db, ch, now, f, c)
            <==> && c in db.customers
                 && var row := db.customers[c];
                    && (match ch
                        case Email => Email in row.optIn
                        case Sms => Sms in row.optIn
                        case Whatsapp => Whatsapp in row.optIn
                        case Push => Push in row.optIn
                        case Web => Email in row.optIn)
                    && (forall id | id in db.events ::
                          var e := db.events[id];
                          e.customerId == c && e.status == Processed && e.fact.channel == ch && e.fact.kind == Send ==>
                            e.fact.ts < now - 24 * 60 * 60 * 1_000_000 || now < e.fact.ts)
                    && (f.minLastActive.Some? ==> row.lastActive.Some? && row.lastActive.value >= f.minLastActive.value)
                    && (f.hasConverted == Some(true) ==> row.hasConverted)
                    && (f.hasConverted == Some(false) ==> !row.hasConverted)
  {
    if c in db.customers {
      assert !RecentSend(db, c, ch, now)
          <==> forall id | id in db.events ::
                 var e := db.events[id];
                 e.customerId == c && e.status == Processed && e.fact.channel == ch && e.fact.kind == Send ==>
                   e.fact.ts < now - 86_400_000_000 || now < e.fact.ts;
    }
  }

  /**
   * Consent over runs: once an unsubscribe or complaint on a channel other than web is processed, no later state,
   * whatever happens in between, lets a preview for that channel return the customer; nor, for email, one for web.
   */
  lemma ConsentIsFinal(cfg: P.Config, base: map<CustomerId, Customer>, s: P.Sys, steps: seq<P.Step>, id: EventId,
                       ch: Channel, now: int, f: Filters)
    requires R.Reachable(cfg, base, s) && R.Legal(cfg, s, steps)
    requires id in s.db.events && s.db.events[id].status == Processed && Withdraws(s.db.events[id].fact, ch)
    ensures !Eligible(R.Run(cfg, s, steps).db, ch, now, f, s.db.events[id].customerId)
  {
    assert Revokes(s.db.events[id].fact, ConsentFlag(ch));
    var c, t := s.db.events[id].customerId, R.Run(cfg, s, steps);
    R.ReachableInv(cfg, base, s);
    R.InvRun(cfg, base, s, steps);
    R.ProcessedIsFinal(cfg, s, steps);
    assert id in DoneBy(t.db.events, c) && DoneBy(t.db.events, c)[id] == s.db.events[id].fact;
    assert c in t.db.customers ==> CustomerExact(cfg.q, base, t.db, c);
  }

  /** In every reachable state the displayed score is the clamped, decayed sum over exactly the processed events. */
  lemma DisplayIsExact(cfg: P.Config, base: map<CustomerId, Customer>, s: P.Sys, row: Row, now: int)
    requires R.Reachable(cfg, base, s) && row.customerId in s.db.customers && RowMatches(s.db, row)
    ensures var done := DoneBy(s.db.events, row.customerId);
            Scored(cfg.q, row, now).score
            == Clamp(Total(Contributions(cfg.q, done, if row.updated.Some? then Max(now, row.updated.value) else now)))
  {
    R.ExactlyOnceEffects(cfg, base, s, row.customerId);
    if row.updated.Some? {
      C.DisplayedScore(cfg.q, DoneBy(s.db.events, row.customerId), s.db.engagement[row.customerId], now);
    } else {
      TimesUnits(Pow(cfg.q, 0));
      assert Contributions(cfg.q, DoneBy(s.db.events, row.customerId), now) == map[];
    }
  }

  /** The frequency cap over runs: a send processed by now keeps its customer out for 24 hours after its time. */
  lemma SendsAreCapped(cfg: P.Config, s: P.Sys, steps: seq<P.Step>, id: EventId, ch: Channel, now: int, f: Filters)
    requires R.Legal(cfg, s, steps)
    requires id in s.db.events && s.db.events[id].status == Processed
    requires s.db.events[id].fact.channel == ch && s.db.events[id].fact.kind == Send
    requires now - 86_400_000_000 <= s.db.events[id].fact.ts <= now
    ensures !Eligible(R.Run(cfg, s, steps).db, ch, now, f, s.db.events[id].customerId)
  {
    R.ProcessedIsFinal(cfg, s, steps);
  }

  /** What a preview returned, if nobody but eligible customers with their rows was streamed to it. */
  ghost predicate Returned(q: Factor, db: Db, ch: Channel, now: int, f: Filters, top: seq<ScoredCustomer>) {
    exists batches :: Streams(db, ch, now, f, batches)
                      && multiset(top) <= multiset(Ranked(q, Flatten(batches), f.minScore, now))
  }

  lemma IneligibleNotReturned(q: Factor, db: Db, ch: Channel, now: int, f: Filters, top: seq<ScoredCustomer>,
                              c: CustomerId)
    requires Returned(q, db, ch, now, f, top) && !Eligible(db, ch, now, f, c)
    ensures forall e | e in top :: e.customerId != c
  {
    hide Eligible, Streams, Ranked;
    var batches :| Streams(db, ch, now, f, batches)
        && multiset(top) <= multiset(Ranked(q, Flatten(batches), f.minScore, now));
    forall e | e in top
      ensures e.customerId != c
    {
      PreviewIsEligible(q, db, ch, now, f, batches, top, e);
    }
  }

  /**
   * After a processed unsubscribe or complaint, and for 24 hours after a processed send, no preview of any later state
   * returns the customer on that channel.
   */
  lemma KeptOut(cfg: P.Config, base: map<CustomerId, Customer>, s: P.Sys, steps: seq<P.Step>, id: EventId,
                ch: Channel, now: int, f: Filters, top: seq<ScoredCustomer>)
    requires R.Reachable(cfg, base, s) && R.Legal(cfg, s, steps)
    requires id in s.db.events && s.db.events[id].status == Processed
    requires Returned(cfg.q, R.Run(cfg, s, steps).db, ch, now, f, top)
    requires var fact := s.db.events[id].fact;
             || Withdraws(fact, ch)
             || (fact.channel == ch && fact.kind == Send && now - 86_400_000_000 <= fact.ts <= now)
    ensures forall e | e in top :: e.customerId != s.db.events[id].customerId
  {
    hide Eligible, Returned, R.Reachable, R.Legal, R.Run;
    if Withdraws(s.db.events[id].fact, ch) {
      ConsentIsFinal(cfg, base, s, steps, id, ch, now, f);
    } else {
      SendsAreCapped(cfg, s, steps, id, ch, now, f);
    }
    IneligibleNotReturned(cfg.q, R.Run(cfg, s, steps).db, ch, now, f, top, s.db.events[id].customerId);
  }
}
