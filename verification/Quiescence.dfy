/** Republishing all that is due, then draining the stream: the fault-free continuation in which all work gets done. */
module Quiescence {
  import opened Types
  import opened Scoring
  import opened Database
  import opened Broker
  import opened Pipeline
  import opened Safety
  import opened Runs
  import opened Progress

  ghost function Due(s: Sys): seq<nat> {
    AllClaimable(s.db, s.now, {})
  }

  lemma DueExact(s: Sys)
    requires WellFormed(s.db)
    ensures Ascending(Due(s)) && forall o: nat :: o in Due(s) <==> Claimable(s.db, s.now, {}, o)
  {
    ClaimableBelowExact(s.db, s.now, {}, s.db.nextOutbox);
  }

  /** Every row of a pending event is due for publication or has its message in the stream. */
  ghost predicate Covered(s: Sys) {
    forall o | o in s.db.outbox && IsPending(s.db, s.db.outbox[o].eventId) ::
      Claimable(s.db, s.now, {}, o) || MessageLive(s.db.outbox[o], s.stream)
  }

  lemma ClaimShape(cfg: Config, s: Sys)
    requires Enabled(cfg, s, Claim(0, {})) && Valid(s.stream) && s.recons == map[]
    ensures var t := Next(cfg, s, Claim(0, {}));
            && t.db == s.db && t.now == s.now && t.tasks == s.tasks && t.stream == s.stream
            && t.recons == map[0 := Recon(Take(Due(s), cfg.limit), map[], {}, {}, false)]
  {
    assert AllLocked(s.recons) + {} == {};
    hide NextHistory;
  }

  lemma CommittedDue(cfg: Config, s: Sys, t: Sys)
    requires WellFormed(s.db) && WellFormed(t.db)
    requires Committed(Recon(Take(Due(s), cfg.limit), map[], {}, {}, false), s, t)
    ensures Due(t) == Drop(Due(s), cfg.limit)
    ensures Covered(s) ==> Covered(t)
  {
    var rc := Recon(Take(Due(s), cfg.limit), map[], {}, {}, false);
    assert forall o :: o in Locked(rc) <==> o in rc.todo;
    DueExact(s);
    DueExact(t);
    DropMembers(Due(s), cfg.limit);
    hide AllClaimable, Locked;
    forall o: nat
      ensures o in Due(t) <==> o in Drop(Due(s), cfg.limit)
    {
      assert o in Drop(Due(s), cfg.limit) <==> o in Due(s) && o !in rc.todo;
    }
    AscendingUnique(Due(t), Drop(Due(s), cfg.limit));
  }

  /** One reconcile, run alone and to its commit, takes the first `limit` due rows off the list. */
  lemma ReconcileOnce(cfg: Config, base: map<CustomerId, Customer>, s: Sys) returns (t: Sys)
    requires Inv(cfg, base, s) && s.recons == map[]
    ensures WorksTo(cfg, s, t) && Inv(cfg, base, t)
    ensures t.recons == map[] && t.now == s.now && t.tasks == s.tasks && Grows(s.stream, t.stream)
    ensures t.db == s.db.(outbox := t.db.outbox)
    ensures Due(t) == Drop(Due(s), cfg.limit)
    ensures Covered(s) ==> Covered(t)
  {
    hide Inv, WorksTo, Next, Covered, Due;
    StreamFacts(cfg, base, s);
    WorksStep(cfg, base, s, Claim(0, {}));
    ClaimShape(cfg, s);
    var a := Next(cfg, s, Claim(0, {}));
    t := FinishRecon(cfg, base, a, 0);
    StreamFacts(cfg, base, t);
    WorksOn(cfg, s, a, t);
    CommittedDue(cfg, s, t);
  }

  /** With the clock held, k reconciles take k times `limit` rows: ceil(n / limit) of them handle all n. */
  lemma {:induction false} ReconcileRounds(cfg: Config, base: map<CustomerId, Customer>, s: Sys, k: nat)
    returns (t: Sys)
    requires Inv(cfg, base, s) && s.recons == map[]
    ensures WorksTo(cfg, s, t) && Inv(cfg, base, t)
    ensures t.recons == map[] && t.now == s.now && t.tasks == s.tasks && t.stream.pel == s.stream.pel
    ensures t.db == s.db.(outbox := t.db.outbox)
    ensures Due(t) == Drop(Due(s), k * cfg.limit)
    ensures Covered(s) ==> Covered(t)
    decreases k
  {
    hide Inv, WorksTo, Covered, Due;
    if k == 0 {
      StreamFacts(cfg, base, s);
      WorksHere(cfg, s);
      t := s;
    } else {
      var a := ReconcileOnce(cfg, base, s);
      t := ReconcileRounds(cfg, base, a, k - 1);
      WorksOn(cfg, s, a, t);
      assert k * cfg.limit == cfg.limit + (k - 1) * cfg.limit;
    }
  }

  function Rounds(n: nat, limit: nat): nat
    requires 0 < limit
  {
    (n + limit - 1) / limit
  }

  /** That many reconciles suffice, and one fewer does not. */
  lemma RoundsExact(n: nat, limit: nat)
    requires 0 < limit
    ensures n <= Rounds(n, limit) * limit
    ensures 0 < n ==> (Rounds(n, limit) - 1) * limit < n
  {}

  /** All rows due at a fixed clock are handled by ceil(n / limit) reconciles. */
  lemma PublishAllDue(cfg: Config, base: map<CustomerId, Customer>, s: Sys) returns (t: Sys)
    requires Inv(cfg, base, s) && s.recons == map[] && 0 < cfg.limit
    ensures WorksTo(cfg, s, t) && Inv(cfg, base, t) && Due(t) == []
    ensures t.recons == map[] && t.now == s.now && t.tasks == s.tasks && t.stream.pel == s.stream.pel
    ensures t.db == s.db.(outbox := t.db.outbox)
    ensures Covered(s) ==> Covered(t)
  {
    hide Inv, WorksTo, Covered, Due, Rounds;
    t := ReconcileRounds(cfg, base, s, Rounds(|Due(s)|, cfg.limit));
    RoundsExact(|Due(s)|, cfg.limit);
  }

  /** A clock late enough that every publication is stale and every delivery is idle. */
  function LateEnough(cfg: Config, s: Sys): int {
    s.now + RETRY_AFTER + cfg.claimIdle + 1
  }

  ghost predicate AllIdle(cfg: Config, s: Sys) {
    forall m | m in s.stream.pel :: Idle(s.stream, m, cfg.claimIdle, s.now)
  }

  lemma TickShape(cfg: Config, s: Sys, t: int)
    requires Enabled(cfg, s, Tick(t)) && Valid(s.stream)
    ensures var n := Next(cfg, s, Tick(t));
            n.db == s.db && n.now == t && n.stream == s.stream && n.recons == s.recons && n.tasks == s.tasks
  {
    hide NextHistory;
  }

  lemma Wait(cfg: Config, base: map<CustomerId, Customer>, s: Sys) returns (t: Sys)
    requires Inv(cfg, base, s) && s.recons == map[]
    ensures WorksTo(cfg, s, t) && Inv(cfg, base, t)
    ensures t.recons == map[] && t.tasks == s.tasks && t.db == s.db
    ensures Covered(t) && AllIdle(cfg, t)
  {
    var late := LateEnough(cfg, s);
    assert StreamValid(s.stream, s.now) && RowsValid(s.db.outbox, s.stream, s.now) by { StreamFacts(cfg, base, s); }
    WorksStep(cfg, base, s, Tick(late));
    TickShape(cfg, s, late);
    t := Next(cfg, s, Tick(late));
    hide Inv, WorksTo, Next;
    LateCovers(s, t);
    LateIdles(cfg, s, t);
  }

  lemma LateCovers(s: Sys, t: Sys)
    requires RowsValid(s.db.outbox, s.stream, s.now) && t.db == s.db && s.now + RETRY_AFTER < t.now
    ensures Covered(t)
  {
    forall o | o in t.db.outbox && IsPending(t.db, t.db.outbox[o].eventId)
      ensures Claimable(t.db, t.now, {}, o)
    {
      assert RowValid(s.stream, s.now, o, s.db.outbox[o]);
    }
  }

  lemma LateIdles(cfg: Config, s: Sys, t: Sys)
    requires StreamValid(s.stream, s.now) && t.stream == s.stream && s.now + cfg.claimIdle <= t.now
    ensures AllIdle(cfg, t)
  {}

  // ---------- Draining the stream ----------

  /** Every pending event has a well-formed message of its own in the stream. */
  ghost predicate InStream(s: Sys) {
    forall id | IsPending(s.db, id) :: exists m ::
        m in s.stream.entries && s.stream.entries[m].raw == Body(Payload(Some(id), true))
  }

  lemma CoveredInStream(cfg: Config, base: map<CustomerId, Customer>, s: Sys)
    requires Inv(cfg, base, s) && Covered(s) && Due(s) == []
    ensures InStream(s)
  {
    DueExact(s);
    forall id | IsPending(s.db, id)
      ensures exists m :: m in s.stream.entries && s.stream.entries[m].raw == Body(Payload(Some(id), true))
    {
      var o :| SafeRow(s.db, s.recons, id, o);
      assert o !in Due(s);
      assert RowValid(s.stream, s.now, o, s.db.outbox[o]);
      assert s.db.outbox[o].messageId.value in s.stream.entries;
    }
  }

  lemma FreshKey(m: map<nat, Task>) returns (w: nat)
    ensures w !in m
  {
    w := AboveAll(m.Keys);
  }

  lemma AboveAll(s: set<nat>) returns (n: nat)
    ensures forall k | k in s :: k < n
  {
    if s == {} {
      n := 0;
    } else {
      var k :| k in s;
      n := AboveAll(s - {k});
      n := Max(n, k + 1);
      assert forall j | j in s :: j == k || j in s - {k};
    }
  }

  /** Worker `w` holds message `m`, on attempt `attempt`, and everything else but the clock's view is `s`. */
  ghost predicate Holding(s: Sys, t: Sys, w: nat, m: nat, attempt: nat) {
    && w !in s.tasks && m in s.stream.entries
    && t.db == s.db && t.now == s.now && t.recons == s.recons && t.stream.entries == s.stream.entries
    && t.tasks == s.tasks[w := Task([Msg(m, Decode(m, s.stream.entries[m].raw))], attempt, false, false)]
    && forall k | k in t.stream.pel && k != m :: k in s.stream.pel && t.stream.pel[k] == s.stream.pel[k]
  }

  lemma TakeoverShape(cfg: Config, s: Sys, w: nat, m: nat)
    requires Enabled(cfg, s, Takeover(w, [m])) && Valid(s.stream)
    ensures Holding(s, Next(cfg, s, Takeover(w, [m])), w, m, 0)
  {
    hide NextHistory;
    assert m in [m];
    assert DecodeAll(s.stream, [m]) == [Msg(m, Decode(m, s.stream.entries[m].raw))];
  }

  lemma OldestExists(b: Stream) returns (m: nat)
    requires Valid(b) && b.pel == map[] && b.entries != map[]
    ensures m in b.entries && Oldest(b, 1) == [m]
  {
    UndeliveredExact(b, b.nextId);
    hide UndeliveredBelow;
    var some :| some in b.entries;
    assert some in Undelivered(b);
    m := Undelivered(b)[0];
    assert m in Undelivered(b);
  }

  lemma ReadShape(cfg: Config, s: Sys, w: nat) returns (m: nat)
    requires Enabled(cfg, s, Read(w, 1)) && Valid(s.stream) && s.stream.pel == map[] && s.stream.entries != map[]
    ensures Holding(s, Next(cfg, s, Read(w, 1)), w, m, 0)
  {
    m := OldestExists(s.stream);
    hide NextHistory, Oldest, Valid, Decode;
    assert DecodeAll(s.stream, [m]) == [Msg(m, Decode(m, s.stream.entries[m].raw))];
  }

  /** A worker takes one message: a delivered one that has been idle, or else the oldest undelivered one. */
  lemma TakeOne(cfg: Config, base: map<CustomerId, Customer>, s: Sys, w: nat) returns (m: nat, t: Sys)
    requires Inv(cfg, base, s) && AllIdle(cfg, s) && w !in s.tasks && s.stream.entries != map[]
    ensures WorksTo(cfg, s, t) && Inv(cfg, base, t) && Holding(s, t, w, m, 0)
  {
    hide Inv, WorksTo, Next, Holding;
    StreamFacts(cfg, base, s);
    if s.stream.pel != map[] {
      m :| m in s.stream.pel;
      WorksStep(cfg, base, s, Takeover(w, [m]));
      TakeoverShape(cfg, s, w, m);
      t := Next(cfg, s, Takeover(w, [m]));
    } else {
      WorksStep(cfg, base, s, Read(w, 1));
      m := ReadShape(cfg, s, w);
      t := Next(cfg, s, Read(w, 1));
    }
  }

  /** What becomes of a message when no transient error interferes: processed, or after the last attempt filed. */
  function Settle(cfg: Config, db: Db, p: Payload, now: int): Db {
    match Process(cfg.q, db, p, now)
    case Ok(next) => next
    case Err(_) => Fail(db, p, cfg.maxRetries)
  }

  /** Settling makes no event pending, and the event a message names is pending no longer. */
  lemma SettleIsTerminal(cfg: Config, db: Db, p: Payload, now: int)
    requires WellFormed(db)
    ensures var next := Settle(cfg, db, p, now);
            && next.events.Keys == db.events.Keys
            && (forall id | IsPending(next, id) :: IsPending(db, id))
            && (p.idText.Some? ==> !IsPending(next, p.idText.value))
  {
    hide Absorb, Touch;
  }

  /** The message is settled and the worker about to acknowledge it. */
  ghost predicate Handled(cfg: Config, s: Sys, t: Sys, w: nat, m: nat) {
    && w !in s.tasks && m in s.stream.entries
    && t.db == Settle(cfg, s.db, Decode(m, s.stream.entries[m].raw), s.now)
    && t.now == s.now && t.recons == s.recons && t.stream.entries == s.stream.entries
    && w in t.tasks && t.tasks == s.tasks[w := t.tasks[w]]
    && t.tasks[w].handled && t.tasks[w].msgs == [Msg(m, Decode(m, s.stream.entries[m].raw))]
    && forall k | k in t.stream.pel && k != m :: k in s.stream.pel && t.stream.pel[k] == s.stream.pel[k]
  }

  lemma AttemptShape(cfg: Config, s: Sys, t: Sys, w: nat, m: nat, attempt: nat)
    requires Holding(s, t, w, m, attempt) && attempt <= cfg.maxRetries && Valid(t.stream)
    ensures Enabled(cfg, t, Attempt(w))
    ensures var p, u := Decode(m, s.stream.entries[m].raw), Next(cfg, t, Attempt(w));
            if Process(cfg.q, s.db, p, s.now).Ok? then Handled(cfg, s, u, w, m)
            else Holding(s, u, w, m, attempt + 1)
  {
    hide NextHistory, Process;
  }

  lemma DeadLetterShape(cfg: Config, s: Sys, t: Sys, w: nat, m: nat)
    requires Holding(s, t, w, m, cfg.maxRetries + 1) && Valid(t.stream)
    requires Process(cfg.q, s.db, Decode(m, s.stream.entries[m].raw), s.now).Err?
    ensures Enabled(cfg, t, DeadLetter(w)) && Handled(cfg, s, Next(cfg, t, DeadLetter(w)), w, m)
  {
    hide NextHistory, Process, Fail;
  }

  /** The retry loop: attempts until one succeeds, or the dead-letter transaction after the last. */
  lemma {:induction false} HandleOne(cfg: Config, base: map<CustomerId, Customer>, s: Sys, t: Sys, w: nat, m: nat,
                                     attempt: nat)
    returns (u: Sys)
    requires Inv(cfg, base, t) && Holding(s, t, w, m, attempt) && attempt <= cfg.maxRetries + 1
    requires 0 < attempt ==> Process(cfg.q, s.db, Decode(m, s.stream.entries[m].raw), s.now).Err?
    ensures WorksTo(cfg, t, u) && Inv(cfg, base, u) && Handled(cfg, s, u, w, m)
    decreases cfg.maxRetries + 1 - attempt
  {
    assert m in s.stream.entries;
    hide Inv, WorksTo, Next, Holding, Handled, Process, Enabled;
    StreamFacts(cfg, base, t);
    if attempt == cfg.maxRetries + 1 {
      DeadLetterShape(cfg, s, t, w, m);
      WorksStep(cfg, base, t, DeadLetter(w));
      u := Next(cfg, t, DeadLetter(w));
    } else {
      AttemptShape(cfg, s, t, w, m, attempt);
      WorksStep(cfg, base, t, Attempt(w));
      u := Next(cfg, t, Attempt(w));
      if Process(cfg.q, s.db, Decode(m, s.stream.entries[m].raw), s.now).Err? {
        var v := HandleOne(cfg, base, s, u, w, m, attempt + 1);
        WorksOn(cfg, t, u, v);
        u := v;
      }
    }
  }

  /** One message fewer, its event settled, and all else as it was. */
  ghost predicate OneFewer(cfg: Config, s: Sys, t: Sys, m: nat) {
    && m in s.stream.entries && t.stream.entries == s.stream.entries - {m}
    && t.db == Settle(cfg, s.db, Decode(m, s.stream.entries[m].raw), s.now)
    && t.now == s.now && t.recons == s.recons && t.tasks == s.tasks
    && forall k | k in t.stream.pel :: k in s.stream.pel && t.stream.pel[k] == s.stream.pel[k]
  }

  lemma AcknowledgeShape(cfg: Config, s: Sys, t: Sys, w: nat, m: nat)
    requires Handled(cfg, s, t, w, m) && Valid(t.stream)
    ensures Enabled(cfg, t, Acknowledge(w)) && OneFewer(cfg, s, Next(cfg, t, Acknowledge(w)), m)
  {
    hide NextHistory, Settle;
    assert t.tasks[w].msgs[1..] == [];
    assert s.tasks[w := t.tasks[w]] - {w} == s.tasks;
  }

  lemma HandleNext(cfg: Config, base: map<CustomerId, Customer>, s: Sys, w: nat) returns (m: nat, t: Sys)
    requires Inv(cfg, base, s) && AllIdle(cfg, s) && w !in s.tasks && s.stream.entries != map[]
    ensures WorksTo(cfg, s, t) && Inv(cfg, base, t) && OneFewer(cfg, s, t, m)
  {
    hide Inv, WorksTo, Next, Holding, Handled, OneFewer, AllIdle, Enabled;
    var a;
    m, a := TakeOne(cfg, base, s, w);
    var b := HandleOne(cfg, base, s, a, w, m, 0);
    WorksOn(cfg, s, a, b);
    StreamFacts(cfg, base, b);
    AcknowledgeShape(cfg, s, b, w, m);
    WorksStep(cfg, base, b, Acknowledge(w));
    t := Next(cfg, b, Acknowledge(w));
    WorksOn(cfg, s, b, t);
  }

  lemma OneFewerKeeps(cfg: Config, s: Sys, t: Sys, m: nat)
    requires OneFewer(cfg, s, t, m) && WellFormed(s.db)
    ensures AllIdle(cfg, s) ==> AllIdle(cfg, t)
    ensures InStream(s) ==> InStream(t)
    ensures t.db.events.Keys == s.db.events.Keys
  {
    hide Settle;
    SettleIsTerminal(cfg, s.db, Decode(m, s.stream.entries[m].raw), s.now);
    if InStream(s) {
      forall id | IsPending(t.db, id)
        ensures exists k :: k in t.stream.entries && t.stream.entries[k].raw == Body(Payload(Some(id), true))
      {
        assert IsPending(s.db, id);
        var k :| k in s.stream.entries && s.stream.entries[k].raw == Body(Payload(Some(id), true));
        assert k != m;
        assert k in t.stream.entries;
      }
    }
  }

  lemma {:induction false} DrainStream(cfg: Config, base: map<CustomerId, Customer>, s: Sys, w: nat) returns (t: Sys)
    requires Inv(cfg, base, s) && AllIdle(cfg, s) && InStream(s) && w !in s.tasks
    ensures WorksTo(cfg, s, t) && Inv(cfg, base, t)
    ensures t.stream.entries == map[] && InStream(t) && t.db.events.Keys == s.db.events.Keys
    decreases |s.stream.entries|
  {
    hide Inv, WorksTo, AllIdle, InStream;
    StreamFacts(cfg, base, s);
    if s.stream.entries == map[] {
      WorksHere(cfg, s);
      t := s;
    } else {
      var m, a := HandleNext(cfg, base, s, w);
      OneFewerKeeps(cfg, s, a, m);
      assert |a.stream.entries| < |s.stream.entries|;
      t := DrainStream(cfg, base, a, w);
      WorksOn(cfg, s, a, t);
    }
  }

  /** Finish what is under way, wait, and publish all that is due: every pending event is then in the stream. */
  lemma PublishEverything(cfg: Config, base: map<CustomerId, Customer>, s: Sys) returns (t: Sys)
    requires Inv(cfg, base, s) && 0 < cfg.limit
    ensures WorksTo(cfg, s, t) && Inv(cfg, base, t)
    ensures AllIdle(cfg, t) && InStream(t) && t.db.events == s.db.events
  {
    hide Inv, WorksTo, Covered, Due, InStream;
    var a := FinishAll(cfg, base, s);
    var b := Wait(cfg, base, a);
    t := PublishAllDue(cfg, base, b);
    CoveredInStream(cfg, base, t);
    WorksOn(cfg, s, a, b);
    WorksOn(cfg, s, b, t);
  }

  /**
   * No event is stuck. From every reachable state, whatever crashed, was lost or is half done, there is a
   * finite continuation without any fault or new input that leaves every event of the database terminal
   * and the stream empty.
   */
  lemma NothingStuck(cfg: Config, base: map<CustomerId, Customer>, s: Sys) returns (t: Sys)
    requires Reachable(cfg, base, s) && 0 < cfg.limit
    ensures WorksTo(cfg, s, t)
    ensures t.db.events.Keys == s.db.events.Keys && t.stream.entries == map[]
    ensures forall id | id in t.db.events :: IsTerminal(t.db, id)
  {
    hide WorksTo, Reachable, Inv, AllIdle;
    ReachableInv(cfg, base, s);
    var a := PublishEverything(cfg, base, s);
    var w := FreshKey(a.tasks);
    t := DrainStream(cfg, base, a, w);
    WorksOn(cfg, s, a, t);
    forall id | id in t.db.events ensures IsTerminal(t.db, id) {
      assert !IsPending(t.db, id);
    }
  }
}
