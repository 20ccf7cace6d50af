/**
 * The worker's and the replay endpoint's transactions at the level of row locks and single statements,
 * under READ COMMITTED: every interleaving of them is a run of the atomic transactions of module Database.
 */
module Locks {
  import opened Types
  import opened Decay
  import opened Scoring
  import opened Database
  import opened Effects
  import A = Accounting
  import P = Pipeline

  /** Where a transaction stands, with what it has read so far. */
  datatype Txn =
    | ProcBegin(p: Payload)                                   // about to lock the event named by the payload
    | ProcEvent(id: EventId, evt: Event)                      // holds the event, has seen it pending
    | ProcCustomer(id: EventId, evt: Event, cust: Customer)   // holds event and customer
    | ProcReady(id: EventId, evt: Event, cust: Customer, eng: Option<Engagement>)  // has read the accumulator
    | FailBegin(p: Payload, retries: nat)
    | FailRead(id: EventId, retries: nat, found: Option<Event>) // holds the event, if there was one
    | ReplayBegin(d: nat)
    | ReplayNamed(d: nat, id: EventId)                        // unlocked first read: the row's event id
    | ReplayEvent(d: nat, id: EventId, found: Option<Event>)    // holds the event, if there was one
    | ReplayRow(d: nat, id: EventId, found: Option<Event>, row: DlqRow)  // holds the dead-letter row too

  datatype State = State(db: Db, now: int, txns: map<nat, Txn>)

  // ---------- Locks, read off the transactions ----------

  function EventHeld(t: Txn): Option<EventId> {
    match t
    case ProcEvent(id, _) => Some(id)
    case ProcCustomer(id, _, _) => Some(id)
    case ProcReady(id, _, _, _) => Some(id)
    case FailRead(id, _, evt) => if evt.Some? then Some(id) else None
    case ReplayEvent(_, id, evt) => if evt.Some? then Some(id) else None
    case ReplayRow(_, id, evt, _) => if evt.Some? then Some(id) else None
    case _ => None
  }

  function CustomerHeld(t: Txn): Option<CustomerId> {
    match t
    case ProcCustomer(_, evt, _) => Some(evt.customerId)
    case ProcReady(_, evt, _, _) => Some(evt.customerId)
    case _ => None
  }

  function RowHeld(t: Txn): Option<nat> {
    match t
    case ReplayRow(d, _, _, _) => Some(d)
    case _ => None
  }

  predicate EventFree(s: State, id: EventId) {
    forall k | k in s.txns :: EventHeld(s.txns[k]) != Some(id)
  }

  predicate CustomerFree(s: State, c: CustomerId) {
    forall k | k in s.txns :: CustomerHeld(s.txns[k]) != Some(c)
  }

  predicate RowFree(s: State, d: nat) {
    forall k | k in s.txns :: RowHeld(s.txns[k]) != Some(d)
  }

  // ---------- Steps ----------

  datatype Step =
    | Begin(k: nat, t: Txn)
    | Advance(k: nat)
    | Abort(k: nat)             // crash or error: locks released, nothing written
    | Ingest(body: EventIn)     // other writers: ingestion, the outbox, the clock
    | Outbox(next: map<nat, OutboxRow>)
    | Tick(now: int)

  predicate Fresh(t: Txn) {
    t.ProcBegin? || t.FailBegin? || t.ReplayBegin?
  }

  /** SELECT ... FOR UPDATE of the event: waits only for a lock on an existing row. */
  predicate CanLockEvent(s: State, id: EventId) {
    id in s.db.events ==> EventFree(s, id)
  }

  /** A transaction can take its next statement unless it waits for a lock. */
  predicate CanAdvance(s: State, t: Txn) {
    match t
    case ProcBegin(p) => p.valid && p.idText.Some? ==> CanLockEvent(s, p.idText.value)
    case ProcEvent(_, evt) => CustomerFree(s, evt.customerId)
    case FailBegin(p, _) => CanLockEvent(s, FiledUnder(p))
    case ReplayNamed(_, id) => CanLockEvent(s, id)
    case ReplayEvent(d, _, _) => RowFree(s, d)
    case _ => true
  }

  predicate Enabled(s: State, step: Step) {
    match step
    case Begin(k, t) => k !in s.txns && Fresh(t)
    case Advance(k) => k in s.txns && CanAdvance(s, s.txns[k])
    case Abort(k) => k in s.txns
    case Ingest(_) => true
    case Outbox(next) => forall o | o in next :: o in s.db.outbox && next[o].eventId == s.db.outbox[o].eventId
    case Tick(now) => s.now <= now
  }

  /** What process_one_event writes, computed from its own reads only. */
  function WriteBack(q: Factor, db: Db, t: Txn, now: int): Db
    requires t.ProcReady?
  {
    db.(engagement := db.engagement[t.evt.customerId := Absorb(q, t.eng, t.evt.fact)],
        customers := db.customers[t.evt.customerId := Touch(t.cust, t.evt.fact)],
        events := db.events[t.id := t.evt.(status := Processed, processedAt := Some(now))])
  }

  function FailWrite(db: Db, t: Txn): Db
    requires t.FailRead?
  {
    var filed := AddDlq(db, t.id, t.retries);
    match t.found
    case None => filed
    case Some(evt) => filed.(events := filed.events[t.id := evt.(status := Failed)])
  }

  function ReplayWrite(db: Db, t: Txn, now: int): Db
    requires t.ReplayRow? && t.found.Some?
  {
    EnqueueOutbox(db.(events := db.events[t.id := t.found.value.(status := Pending, processedAt := None)],
                      dlq := db.dlq[t.d := t.row.(replayedAt := Some(now))]), t.id, now)
  }

  /** The transaction after its next statement (None when it ends) and the committed database. */
  function Statement(q: Factor, s: State, t: Txn): (Option<Txn>, Db) {
    match t
    case ProcBegin(p) =>
      if p.valid && p.idText.Some? && IsPending(s.db, p.idText.value)
      then (Some(ProcEvent(p.idText.value, s.db.events[p.idText.value])), s.db)
      else (None, s.db)
    case ProcEvent(id, evt) =>
      if evt.customerId in s.db.customers then (Some(ProcCustomer(id, evt, s.db.customers[evt.customerId])), s.db)
      else (None, s.db)
    case ProcCustomer(id, evt, cust) => (Some(ProcReady(id, evt, cust, Lookup(s.db.engagement, evt.customerId))), s.db)
    case ProcReady(_, _, _, _) => (None, WriteBack(q, s.db, t, s.now))
    case FailBegin(p, retries) =>
      if IsTerminal(s.db, FiledUnder(p)) then (None, s.db)
      else (Some(FailRead(FiledUnder(p), retries, Lookup(s.db.events, FiledUnder(p)))), s.db)
    case FailRead(_, _, _) => (None, FailWrite(s.db, t))
    case ReplayBegin(d) =>
      if d in s.db.dlq then (Some(ReplayNamed(d, s.db.dlq[d].eventId)), s.db) else (None, s.db)
    case ReplayNamed(d, id) => (Some(ReplayEvent(d, id, Lookup(s.db.events, id))), s.db)
    case ReplayEvent(d, id, evt) =>
      if d in s.db.dlq then (Some(ReplayRow(d, id, evt, s.db.dlq[d])), s.db) else (None, s.db)
    case ReplayRow(d, id, evt, row) =>
      if row.replayedAt.Some? || evt.None? || evt.value.status != Failed then (None, s.db)
      else (None, ReplayWrite(s.db, t, s.now))
  }

  function Next(q: Factor, s: State, step: Step): State
    requires Enabled(s, step)
  {
    match step
    case Begin(k, t) => s.(txns := s.txns[k := t])
    case Advance(k) =>
      var (t, db) := Statement(q, s, s.txns[k]);
      s.(db := db, txns := if t.Some? then s.txns[k := t.value] else s.txns - {k})
    case Abort(k) => s.(txns := s.txns - {k})
    case Ingest(body) => s.(db := PersistOne(s.db, body, s.now))
    case Outbox(next) => s.(db := s.db.(outbox := next))
    case Tick(now) => s.(now := now)
  }

  // ---------- What every interleaving keeps ----------

  /** What a transaction has read under a lock is still what is committed. */
  ghost predicate ReadsCurrent(db: Db, t: Txn) {
    match t
    case ProcEvent(id, evt) => IsPending(db, id) && db.events[id] == evt
    case ProcCustomer(id, evt, cust) =>
      IsPending(db, id) && db.events[id] == evt && Lookup(db.customers, evt.customerId) == Some(cust)
    case ProcReady(id, evt, cust, eng) =>
      && IsPending(db, id) && db.events[id] == evt && Lookup(db.customers, evt.customerId) == Some(cust)
      && Lookup(db.engagement, evt.customerId) == eng
    case FailRead(id, _, evt) =>
      evt.Some? ==> evt.value.status == Pending && Lookup(db.events, id) == evt
    case ReplayNamed(d, id) => d in db.dlq && db.dlq[d].eventId == id
    case ReplayEvent(d, id, evt) =>
      d in db.dlq && db.dlq[d].eventId == id && (evt.Some? ==> Lookup(db.events, id) == evt)
    case ReplayRow(d, id, evt, row) =>
      && Lookup(db.dlq, d) == Some(row) && row.eventId == id
      && (evt.Some? ==> Lookup(db.events, id) == evt)
    case _ => true
  }

  /** No two transactions hold the same lock. */
  ghost predicate Exclusive(txns: map<nat, Txn>) {
    forall j, k | j in txns && k in txns && j != k ::
      && (EventHeld(txns[j]).Some? ==> EventHeld(txns[j]) != EventHeld(txns[k]))
      && (CustomerHeld(txns[j]).Some? ==> CustomerHeld(txns[j]) != CustomerHeld(txns[k]))
      && (RowHeld(txns[j]).Some? ==> RowHeld(txns[j]) != RowHeld(txns[k]))
  }

  ghost predicate Valid(s: State) {
    && WellFormed(s.db)
    && Exclusive(s.txns)
    && forall k | k in s.txns :: ReadsCurrent(s.db, s.txns[k])
  }

  // ---------- The atomic level ----------

  datatype Atomic =
    | AProcess(p: Payload)
    | AFail(p: Payload, retries: nat)
    | AOrphan(id: EventId, retries: nat)   // a dead-letter row for an id under which no event was found
    | AReplay(d: nat)
    | AIngest(body: EventIn)
    | AOutbox(next: map<nat, OutboxRow>)
    | ANothing

  function Atomically(q: Factor, db: Db, now: int, a: Atomic): Db {
    match a
    case AProcess(p) => (match Process(q, db, p, now) case Ok(next) => next case Err(_) => db)
    case AFail(p, retries) => Fail(db, p, retries)
    case AOrphan(id, retries) => AddDlq(db, id, retries)
    case AReplay(d) => Replay(db, d, now)
    case AIngest(body) => PersistOne(db, body, now)
    case AOutbox(next) => db.(outbox := next)
    case ANothing => db
  }

  /** The atomic transaction that a step amounts to: a commit its whole transaction, any other statement nothing. */
  function Abstracts(s: State, step: Step): Atomic
    requires Enabled(s, step)
  {
    match step
    case Advance(k) =>
      (match s.txns[k]
       case ProcReady(id, _, _, _) => AProcess(Payload(Some(id), true))
       case FailRead(id, retries, evt) =>
         if evt.Some? then AFail(Payload(Some(id), true), retries) else AOrphan(id, retries)
       case ReplayRow(d, _, evt, _) => if evt.Some? then AReplay(d) else ANothing
       case _ => ANothing)
    case Ingest(body) => AIngest(body)
    case Outbox(next) => AOutbox(next)
    case _ => ANothing
  }

  /** Each step changes the database exactly as its atomic transaction does. */
  lemma StepRefines(q: Factor, s: State, step: Step)
    requires Valid(s) && Enabled(s, step)
    ensures Next(q, s, step).db == Atomically(q, s.db, s.now, Abstracts(s, step))
  {
    hide Absorb, Touch;
  }

  /** A statement only takes locks that were free. */
  lemma NewLocksWereFree(q: Factor, s: State, k: nat)
    requires Enabled(s, Advance(k)) && Statement(q, s, s.txns[k]).0.Some?
    ensures var t, u := s.txns[k], Statement(q, s, s.txns[k]).0.value;
            && (EventHeld(u).Some? ==> EventHeld(u) == EventHeld(t) || EventFree(s, EventHeld(u).value))
            && (CustomerHeld(u).Some? ==> CustomerHeld(u) == CustomerHeld(t) || CustomerFree(s, CustomerHeld(u).value))
            && (RowHeld(u).Some? ==> RowHeld(u) == RowHeld(t) || RowFree(s, RowHeld(u).value))
  {
    hide EventFree, CustomerFree, RowFree, WriteBack, FailWrite, ReplayWrite;
  }

  lemma LocksStayExclusive(q: Factor, s: State, step: Step)
    requires Exclusive(s.txns) && Enabled(s, step)
    ensures Exclusive(Next(q, s, step).txns)
  {
    if step.Advance? && Statement(q, s, s.txns[step.k]).0.Some? {
      NewLocksWereFree(q, s, step.k);
    }
    hide Statement, EventHeld, CustomerHeld, RowHeld;
    if step.Begin? {
      FreshHoldsNothing(step.t);
    }
  }

  lemma FreshHoldsNothing(t: Txn)
    requires Fresh(t)
    ensures EventHeld(t) == None && CustomerHeld(t) == None && RowHeld(t) == None
  {}

  lemma WriteBackUndisturbing(q: Factor, s: State, k: nat, j: nat)
    requires Valid(s) && k in s.txns && j in s.txns && j != k && s.txns[k].ProcReady?
    ensures ReadsCurrent(WriteBack(q, s.db, s.txns[k], s.now), s.txns[j])
  {
    hide Absorb, Touch, WellFormed;
    assert ReadsCurrent(s.db, s.txns[k]) && ReadsCurrent(s.db, s.txns[j]);
    assert EventHeld(s.txns[j]) != EventHeld(s.txns[k]) && CustomerHeld(s.txns[j]) != CustomerHeld(s.txns[k]);
    hide Exclusive;
  }

  lemma FailWriteUndisturbing(s: State, k: nat, j: nat)
    requires Valid(s) && k in s.txns && j in s.txns && j != k && s.txns[k].FailRead?
    ensures ReadsCurrent(FailWrite(s.db, s.txns[k]), s.txns[j])
  {
    assert ReadsCurrent(s.db, s.txns[k]) && ReadsCurrent(s.db, s.txns[j]);
    assert EventHeld(s.txns[j]).Some? ==> EventHeld(s.txns[j]) != EventHeld(s.txns[k]);
    hide Exclusive;
  }

  lemma ReplayWriteUndisturbing(s: State, k: nat, j: nat)
    requires Valid(s) && k in s.txns && j in s.txns && j != k && s.txns[k].ReplayRow? && s.txns[k].found.Some?
    ensures ReadsCurrent(ReplayWrite(s.db, s.txns[k], s.now), s.txns[j])
  {
    hide WellFormed;
    assert ReadsCurrent(s.db, s.txns[k]) && ReadsCurrent(s.db, s.txns[j]);
    assert EventHeld(s.txns[j]) != EventHeld(s.txns[k]) && RowHeld(s.txns[j]) != RowHeld(s.txns[k]);
    hide Exclusive;
  }

  /** A commit writes only under the locks its transaction holds, so it invalidates nobody else's reads. */
  lemma OthersUndisturbed(q: Factor, s: State, k: nat, j: nat)
    requires Valid(s) && Enabled(s, Advance(k)) && j in s.txns && j != k
    ensures ReadsCurrent(Statement(q, s, s.txns[k]).1, s.txns[j])
  {
    hide WriteBack, FailWrite, ReplayWrite, ReadsCurrent;
    assert ReadsCurrent(s.db, s.txns[j]);
    match s.txns[k]
    case ProcReady(_, _, _, _) => WriteBackUndisturbing(q, s, k, j);
    case FailRead(_, _, _) => FailWriteUndisturbing(s, k, j);
    case ReplayRow(_, _, found, _) => {
      if found.Some? { ReplayWriteUndisturbing(s, k, j); }
    }
    case _ => {}
  }

  lemma OwnReadsCurrent(q: Factor, s: State, k: nat)
    requires Valid(s) && Enabled(s, Advance(k)) && Statement(q, s, s.txns[k]).0.Some?
    ensures ReadsCurrent(s.db, Statement(q, s, s.txns[k]).0.value)
  {
    assert ReadsCurrent(s.db, s.txns[k]);
  }

  lemma WritersKeepWellFormed(q: Factor, s: State, step: Step)
    requires Valid(s) && Enabled(s, step)
    ensures WellFormed(Next(q, s, step).db)
  {
    if step.Advance? {
      StatementKeepsWellFormed(q, s, step.k);
    } else if step.Ingest? {
      PersistOneWellFormed(s.db, step.body, s.now);
    }
    hide Statement, PersistOne, Exclusive, ReadsCurrent;
  }

  lemma StatementKeepsWellFormed(q: Factor, s: State, k: nat)
    requires Valid(s) && k in s.txns
    ensures WellFormed(Statement(q, s, s.txns[k]).1)
  {
    hide Exclusive, WriteBack, FailWrite, ReplayWrite;
    assert ReadsCurrent(s.db, s.txns[k]);
    WritesKeepWellFormed(q, s.db, s.txns[k], s.now);
    hide WellFormed;
  }

  lemma WritesKeepWellFormed(q: Factor, db: Db, t: Txn, now: int)
    requires WellFormed(db) && ReadsCurrent(db, t)
    ensures t.ProcReady? ==> WellFormed(WriteBack(q, db, t, now))
    ensures t.FailRead? ==> WellFormed(FailWrite(db, t))
    ensures t.ReplayRow? && t.found.Some? ==> WellFormed(ReplayWrite(db, t, now))
  {
    hide Absorb, Touch;
  }

  lemma IngestUndisturbed(s: State, body: EventIn, j: nat)
    requires Valid(s) && j in s.txns
    ensures ReadsCurrent(PersistOne(s.db, body, s.now), s.txns[j])
  {
    assert ReadsCurrent(s.db, s.txns[j]);
  }

  lemma ValidStep(q: Factor, s: State, step: Step)
    requires Valid(s) && Enabled(s, step)
    ensures Valid(Next(q, s, step))
  {
    LocksStayExclusive(q, s, step);
    WritersKeepWellFormed(q, s, step);
    hide WellFormed, Exclusive, WriteBack, FailWrite, ReplayWrite;
    var n := Next(q, s, step);
    forall j | j in n.txns
      ensures ReadsCurrent(n.db, n.txns[j])
    {
      assert j in s.txns ==> ReadsCurrent(s.db, s.txns[j]);
      match step
      case Advance(k) => {
        if j == k { OwnReadsCurrent(q, s, k); StatementReadsOnly(q, s, k); } else { OthersUndisturbed(q, s, k, j); }
      }
      case Ingest(body) => IngestUndisturbed(s, body, j);
      case _ => {}
    }
  }

  lemma StatementReadsOnly(q: Factor, s: State, k: nat)
    requires k in s.txns && Statement(q, s, s.txns[k]).0.Some?
    ensures Statement(q, s, s.txns[k]).1 == s.db
  {}

  // ---------- Whole runs ----------

  ghost predicate Legal(q: Factor, s: State, steps: seq<Step>)
    decreases |steps|
  {
    steps == [] || (Enabled(s, steps[0]) && Legal(q, Next(q, s, steps[0]), steps[1..]))
  }

  ghost function Run(q: Factor, s: State, steps: seq<Step>): State
    requires Legal(q, s, steps)
    decreases |steps|
  {
    if steps == [] then s else Run(q, Next(q, s, steps[0]), steps[1..])
  }

  /** A serial history: atomic transactions, each with its commit time. */
  ghost function Serially(q: Factor, db: Db, history: seq<(Atomic, int)>): Db
    decreases |history|
  {
    if history == [] then db else Serially(q, Atomically(q, db, history[0].1, history[0].0), history[1..])
  }

  /** The serial history of an interleaved run, in the order of its commits. */
  ghost function SerialHistory(q: Factor, s: State, steps: seq<Step>): seq<(Atomic, int)>
    requires Legal(q, s, steps)
    decreases |steps|
  {
    if steps == [] then []
    else [(Abstracts(s, steps[0]), s.now)] + SerialHistory(q, Next(q, s, steps[0]), steps[1..])
  }

  /** Every interleaving, with crashes anywhere, leaves the database of some serial history of whole transactions. */
  lemma {:induction false} InterleavingsSerialize(q: Factor, s: State, steps: seq<Step>)
    requires Valid(s) && Legal(q, s, steps)
    ensures Run(q, s, steps).db == Serially(q, s.db, SerialHistory(q, s, steps))
    ensures Valid(Run(q, s, steps))
    decreases |steps|
  {
    hide Valid, Enabled, Next, Abstracts, Atomically;
    if steps != [] {
      var n := Next(q, s, steps[0]);
      StepRefines(q, s, steps[0]);
      ValidStep(q, s, steps[0]);
      InterleavingsSerialize(q, n, steps[1..]);
      var history := SerialHistory(q, s, steps);
      assert history[0] == (Abstracts(s, steps[0]), s.now) && history[1..] == SerialHistory(q, n, steps[1..]);
    }
  }

  lemma AtomicKeepsEffects(q: Factor, base: map<CustomerId, Customer>, db: Db, now: int, a: Atomic)
    requires WellFormed(db) && EffectsExact(q, base, db)
    ensures EffectsExact(q, base, Atomically(q, db, now, a))
  {
    hide EffectsExact, WellFormed, Process, Fail, Replay, PersistOne;
    match a
    case AProcess(p) => {
      if Process(q, db, p, now).Ok? { ProcessKeepsEffects(q, base, db, p, now); }
    }
    case AFail(p, retries) => FailKeepsEffects(q, base, db, p, retries);
    case AReplay(d) => ReplayKeepsEffects(q, base, db, d, now);
    case AIngest(body) => PersistKeepsEffects(q, base, db, body, now);
    case _ => SameTablesKeepEffects(q, base, db, Atomically(q, db, now, a));
  }

  /** No update is lost and no event applied twice: under row locks too, customers hold exactly what was processed. */
  lemma {:induction false} InterleavedEffectsExact(q: Factor, base: map<CustomerId, Customer>, s: State,
                                                   steps: seq<Step>)
    requires Valid(s) && EffectsExact(q, base, s.db) && Legal(q, s, steps)
    ensures EffectsExact(q, base, Run(q, s, steps).db)
    decreases |steps|
  {
    hide Enabled, Next, Abstracts, Atomically, EffectsExact;
    if steps != [] {
      StepRefines(q, s, steps[0]);
      ValidStep(q, s, steps[0]);
      AtomicKeepsEffects(q, base, s.db, s.now, Abstracts(s, steps[0]));
      hide Valid;
      InterleavedEffectsExact(q, base, Next(q, s, steps[0]), steps[1..]);
    }
  }

  // ---------- Dead letters and rows ----------

  /**
   * The dead letters that failures wrote, and the outbox rows ever written, as modules Pipeline and Accounting keep.
   */
  datatype Ledger = Ledger(filed: set<nat>, created: map<nat, EventId>)

  ghost predicate LedgerValid(db: Db, book: Ledger) {
    && A.HistoryValid(db, book.filed, book.created)
    && forall e: EventId :: A.EventBalanced(db, book.filed, book.created, e)
  }

  ghost function Booked(db: Db, a: Atomic, next: Db, book: Ledger): Ledger {
    Ledger(
      if a.AFail? && IsPending(db, FiledUnder(a.p)) then book.filed + {db.nextDlq} else book.filed,
      P.Recorded(book.created, next.outbox))
  }

  /** The ledger at the end of an interleaved run. */
  ghost function Books(q: Factor, s: State, steps: seq<Step>, book: Ledger): Ledger
    requires Legal(q, s, steps)
    decreases |steps|
  {
    if steps == [] then book
    else
      var n := Next(q, s, steps[0]);
      Books(q, n, steps[1..], Booked(s.db, Abstracts(s, steps[0]), n.db, book))
  }

  /** An outbox step rewrites or deletes rows, and writes none. */
  ghost predicate NoRowWritten(db: Db, a: Atomic) {
    a.AOutbox? ==> forall o | o in a.next :: o in db.outbox && a.next[o].eventId == db.outbox[o].eventId
  }

  lemma AtomicBalances(q: Factor, db: Db, now: int, a: Atomic, book: Ledger, e: EventId)
    requires WellFormed(db) && LedgerValid(db, book) && NoRowWritten(db, a)
    ensures var next := Atomically(q, db, now, a);
            A.EventBalanced(next, Booked(db, a, next, book).filed, Booked(db, a, next, book).created, e)
  {
    hide A.EventBalanced, Absorb, Touch, PersistOne, Replay, P.Recorded;
    var filed, created, next := book.filed, book.created, Atomically(q, db, now, a);
    assert A.EventBalanced(db, filed, created, e);
    match a
    case AIngest(body) => A.IngestBalances(db, body, now, filed, created, e);
    case AReplay(d) => A.ReplayBalances(db, d, now, filed, created, e);
    case AFail(p, retries) => {
      A.FailBalances(db, p, retries, filed, created, e);
      A.RecordedSame(created, next.outbox);
    }
    case AOrphan(id, retries) => {
      A.AddDlqBalances(db, id, retries, filed, created, e);
      A.RecordedSame(created, next.outbox);
    }
    case _ => {
      A.RecordedSame(created, next.outbox);
      A.UntouchedBalance(db, next, filed, created, e);
    }
  }

  lemma AtomicKeepsHistory(q: Factor, db: Db, now: int, a: Atomic, book: Ledger)
    requires WellFormed(db) && A.HistoryValid(db, book.filed, book.created) && NoRowWritten(db, a)
    ensures var next := Atomically(q, db, now, a);
            A.HistoryValid(next, Booked(db, a, next, book).filed, Booked(db, a, next, book).created)
  {
    AtomicRows(q, db, now, a, book.created);
    AtomicFiled(q, db, now, a, book.filed);
    hide Atomically;
  }

  lemma AtomicRows(q: Factor, db: Db, now: int, a: Atomic, created: map<nat, EventId>)
    requires WellFormed(db) && NoRowWritten(db, a)
    requires forall o | o in created :: o < db.nextOutbox
    requires forall o | o in db.outbox :: o in created && created[o] == db.outbox[o].eventId
    ensures var next := Atomically(q, db, now, a);
            && db.nextOutbox <= next.nextOutbox
            && forall o | o in next.outbox ::
                 o < next.nextOutbox && (o in created ==> created[o] == next.outbox[o].eventId)
  {
    hide Absorb, Touch;
  }

  lemma AtomicFiled(q: Factor, db: Db, now: int, a: Atomic, filed: set<nat>)
    requires filed <= db.dlq.Keys
    ensures var next := Atomically(q, db, now, a);
            filed <= next.dlq.Keys && (a.AFail? && IsPending(db, FiledUnder(a.p)) ==> db.nextDlq in next.dlq)
  {
    hide Absorb, Touch;
  }

  lemma BookedValid(q: Factor, s: State, step: Step, book: Ledger)
    requires Valid(s) && Enabled(s, step) && LedgerValid(s.db, book)
    ensures var n := Next(q, s, step); LedgerValid(n.db, Booked(s.db, Abstracts(s, step), n.db, book))
  {
    StepRefines(q, s, step);
    hide Next, Atomically, A.EventBalanced, A.HistoryValid, Booked;
    AtomicKeepsHistory(q, s.db, s.now, Abstracts(s, step), book);
    forall e: EventId {
      AtomicBalances(q, s.db, s.now, Abstracts(s, step), book, e);
    }
  }

  /** Under row locks too, every event's dead letters, replays and outbox rows stay in balance. */
  lemma {:induction false} InterleavedBalance(q: Factor, s: State, steps: seq<Step>, book: Ledger)
    requires Valid(s) && Legal(q, s, steps) && LedgerValid(s.db, book)
    ensures LedgerValid(Run(q, s, steps).db, Books(q, s, steps, book))
    decreases |steps|
  {
    hide Valid, Enabled, Next, Abstracts, Booked, LedgerValid;
    if steps != [] {
      var n := Next(q, s, steps[0]);
      BookedValid(q, s, steps[0], book);
      ValidStep(q, s, steps[0]);
      InterleavedBalance(q, n, steps[1..], Booked(s.db, Abstracts(s, steps[0]), n.db, book));
    }
  }

  /** Whatever statement makes an event pending commits a new outbox row for it at once. */
  lemma RowWithEveryRaise(q: Factor, s: State, step: Step, id: EventId)
    requires Valid(s) && Enabled(s, step)
    requires !IsPending(s.db, id) && IsPending(Next(q, s, step).db, id)
    ensures Lookup(Next(q, s, step).db.outbox, s.db.nextOutbox) == Some(OutboxRow(id, s.now, None, None))
  {
    StepRefines(q, s, step);
    hide Next, Absorb, Touch;
  }

  lemma AtomicKeepsProcessed(q: Factor, db: Db, now: int, a: Atomic, id: EventId)
    requires id in db.events && db.events[id].status == Processed
    ensures Lookup(Atomically(q, db, now, a).events, id) == Some(db.events[id])
  {
    hide Absorb, Touch;
  }

  /** Once processed, always processed: no interleaving fails, reopens or reapplies the event. */
  lemma {:induction false} InterleavedProcessedIsFinal(q: Factor, s: State, steps: seq<Step>, id: EventId)
    requires Valid(s) && Legal(q, s, steps) && id in s.db.events && s.db.events[id].status == Processed
    ensures Lookup(Run(q, s, steps).db.events, id) == Some(s.db.events[id])
    decreases |steps|
  {
    hide Valid, Enabled, Next, Abstracts, Atomically;
    if steps != [] {
      StepRefines(q, s, steps[0]);
      ValidStep(q, s, steps[0]);
      AtomicKeepsProcessed(q, s.db, s.now, Abstracts(s, steps[0]), id);
      InterleavedProcessedIsFinal(q, Next(q, s, steps[0]), steps[1..], id);
    }
  }

  /** An event a transaction is about to write as processed is pending at that moment, for everybody. */
  lemma AppliedOnce(q: Factor, s: State, k: nat)
    requires Valid(s) && Enabled(s, Advance(k)) && s.txns[k].ProcReady?
    ensures IsPending(s.db, s.txns[k].id)
    ensures Next(q, s, Advance(k)).db.events[s.txns[k].id].status == Processed
    ensures forall j | j in s.txns && j != k :: !(s.txns[j].ProcReady? && s.txns[j].id == s.txns[k].id)
  {
    assert ReadsCurrent(s.db, s.txns[k]);
  }

  // ---------- Deadlock freedom ----------

  /** A transaction that waits for a customer or a dead-letter row waits for one that can go on. */
  lemma SecondLockHolderAdvances(s: State, k: nat) returns (j: nat)
    requires Valid(s) && k in s.txns && !CanAdvance(s, s.txns[k])
    requires s.txns[k].ProcEvent? || s.txns[k].ReplayEvent?
    ensures j in s.txns && CanAdvance(s, s.txns[j])
  {
    if s.txns[k].ProcEvent? {
      j :| j in s.txns && CustomerHeld(s.txns[j]) == Some(s.txns[k].evt.customerId);
    } else {
      j :| j in s.txns && RowHeld(s.txns[j]) == Some(s.txns[k].d);
    }
  }

  /** With events locked before customers and before dead-letter rows, some unfinished transaction can always go on. */
  lemma SomebodyAdvances(s: State) returns (k: nat)
    requires Valid(s) && s.txns != map[]
    ensures k in s.txns && Enabled(s, Advance(k))
  {
    k :| k in s.txns;
    if !CanAdvance(s, s.txns[k]) && !s.txns[k].ProcEvent? && !s.txns[k].ReplayEvent? {
      k :| k in s.txns && EventHeld(s.txns[k]).Some?;
    }
    if !CanAdvance(s, s.txns[k]) {
      k := SecondLockHolderAdvances(s, k);
    }
  }
}
