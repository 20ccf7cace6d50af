/**
 * The methods of the worker and of ingestion are runs of the pipeline machine: a reconcile that commits or is rolled
 * back at any row, the retry and acknowledge loop under every pattern of faults, and a batch of events.
 */
module Refinement {
  import opened Types
  import opened Database
  import opened Broker
  import opened Pipeline
  import opened Runs
  import opened Progress
  import opened Quiescence
  import opened Worker

  /** After `k` rows: what the machine's transaction holds is what the method's loop has done. */
  ghost predicate Midway(s: Sys, t: Sys, rows: seq<nat>, k: nat) {
    && k <= |rows|
    && t.db == s.db && t.now == s.now && t.tasks == s.tasks
    && t.recons.Keys == {0} && t.recons[0].todo == rows[k..] && !t.recons[0].decided
    && t.recons[0].marks == PublishRows(s.db.outbox, s.stream, s.now, rows[..k]).marks
    && t.stream == PublishRows(s.db.outbox, s.stream, s.now, rows[..k]).stream
  }

  lemma AdvanceMidway(cfg: Config, s: Sys, t: Sys, rows: seq<nat>, k: nat)
    requires Midway(s, t, rows, k) && k < |rows| && rows[k] in s.db.outbox && Valid(t.stream)
    ensures Enabled(cfg, t, Advance(0)) && Midway(s, Next(cfg, t, Advance(0)), rows, k + 1)
  {
    PublishStep(s.db.outbox, s.stream, s.now, rows, k);
    hide PublishRows, NextHistory, CommitOutbox;
    assert rows[k..][1..] == rows[k + 1..];
  }

  /** Claim, and then the first k rows. */
  function OpenSteps(k: nat): seq<Step> {
    if k == 0 then [Claim(0, {})] else OpenSteps(k - 1) + [Advance(0)]
  }

  lemma StartMidway(cfg: Config, base: map<CustomerId, Customer>, s: Sys)
    requires Inv(cfg, base, s) && s.recons == map[]
    ensures Legal(cfg, s, OpenSteps(0))
    ensures Midway(s, Run(cfg, s, OpenSteps(0)), ClaimUnpublished(s.db, s.now, {}, cfg.limit), 0)
  {
    hide Inv, Next, Legal, Run;
    OneStep(cfg, base, s, Claim(0, {}));
    ClaimShape(cfg, s);
    var rows := ClaimUnpublished(s.db, s.now, {}, cfg.limit);
    assert rows[..0] == [] && rows[0..] == rows;
    PublishNothing(s.db.outbox, s.stream, s.now);
  }

  lemma AdvanceIsRun(cfg: Config, base: map<CustomerId, Customer>, s: Sys, steps: seq<Step>, k: nat)
    requires Inv(cfg, base, s) && Legal(cfg, s, steps) && k < |ClaimUnpublished(s.db, s.now, {}, cfg.limit)|
    requires Midway(s, Run(cfg, s, steps), ClaimUnpublished(s.db, s.now, {}, cfg.limit), k)
    ensures Legal(cfg, s, steps + [Advance(0)])
    ensures Midway(s, Run(cfg, s, steps + [Advance(0)]), ClaimUnpublished(s.db, s.now, {}, cfg.limit), k + 1)
  {
    hide Inv, Midway, Next, Enabled, Legal, Run, ClaimUnpublished;
    InvRun(cfg, base, s, steps);
    StreamFacts(cfg, base, s);
    StreamFacts(cfg, base, Run(cfg, s, steps));
    ClaimedExist(s.db, s.now, cfg.limit);
    AdvanceMidway(cfg, s, Run(cfg, s, steps), ClaimUnpublished(s.db, s.now, {}, cfg.limit), k);
    RunSnoc(cfg, base, s, steps, Advance(0));
  }

  lemma {:induction false} OpenIsRun(cfg: Config, base: map<CustomerId, Customer>, s: Sys, k: nat)
    requires Inv(cfg, base, s) && s.recons == map[] && k <= |ClaimUnpublished(s.db, s.now, {}, cfg.limit)|
    ensures Legal(cfg, s, OpenSteps(k))
    ensures Midway(s, Run(cfg, s, OpenSteps(k)), ClaimUnpublished(s.db, s.now, {}, cfg.limit), k)
  {
    hide Inv, Midway, Next, Legal, Run, ClaimUnpublished;
    if k == 0 {
      StartMidway(cfg, base, s);
    } else {
      OpenIsRun(cfg, base, s, k - 1);
      AdvanceIsRun(cfg, base, s, OpenSteps(k - 1), k - 1);
    }
  }

  /** What a call of ReconcileOutbox that does not fail leaves, as its contract says. */
  function AfterCall(cfg: Config, db: Db, b: Stream, now: int): (Db, Stream) {
    var p := PublishRows(db.outbox, b, now, ClaimUnpublished(db, now, {}, cfg.limit));
    (db.(outbox := CommitOutbox(db.outbox, p.marks, ExpiredRows(db, now - cfg.retention))), p.stream)
  }

  /** The steps of a reconcile that goes through. */
  function ReconcileSteps(cfg: Config, db: Db, now: int): seq<Step> {
    var rows, expired := ClaimUnpublished(db, now, {}, cfg.limit), ExpiredRows(db, now - cfg.retention);
    OpenSteps(|rows|) + [Snapshot(0)] + [Commit(0, expired)]
  }

  /** ReconcileOutbox, when nothing fails, is a reconcile transaction of the machine, run alone and to its commit. */
  lemma ReconcileIsRun(cfg: Config, base: map<CustomerId, Customer>, s: Sys)
    requires Inv(cfg, base, s) && s.recons == map[]
    ensures Legal(cfg, s, ReconcileSteps(cfg, s.db, s.now))
    ensures var t := Run(cfg, s, ReconcileSteps(cfg, s.db, s.now));
            && (t.db, t.stream) == AfterCall(cfg, s.db, s.stream, s.now)
            && t.now == s.now && t.tasks == s.tasks && t.recons == map[]
  {
    hide Inv, Next, Legal, Run, PublishRows, CommitOutbox, ExpiredRows, ClaimUnpublished, OpenSteps;
    var rows := ClaimUnpublished(s.db, s.now, {}, cfg.limit);
    var begun, deleted := OpenSteps(|rows|), ExpiredRows(s.db, s.now - cfg.retention);
    OpenIsRun(cfg, base, s, |rows|);
    var a := Run(cfg, s, begun);
    assert rows[..|rows|] == rows;
    RunSnoc(cfg, base, s, begun, Snapshot(0));
    SnapshotShape(cfg, a, 0);
    var b := Run(cfg, s, begun + [Snapshot(0)]);
    assert AllLocked(b.recons - {0}) == {};
    RunSnoc(cfg, base, s, begun + [Snapshot(0)], Commit(0, deleted));
    CommitShape(cfg, b, 0, deleted);
  }

  lemma RollbackShape(cfg: Config, s: Sys)
    requires Enabled(cfg, s, Rollback(0)) && Valid(s.stream) && s.recons.Keys == {0}
    ensures var t := Next(cfg, s, Rollback(0));
            t.db == s.db && t.now == s.now && t.tasks == s.tasks && t.stream == s.stream && t.recons == map[]
  {
    hide NextHistory;
  }

  /**
   * ReconcileOutbox, when row `i` raises, is a transaction of the machine rolled back after `i` rows; past the last
   * row it is the cleanup or the commit that raised.
   */
  lemma FailedReconcileIsRun(cfg: Config, base: map<CustomerId, Customer>, s: Sys, i: nat)
    requires Inv(cfg, base, s) && s.recons == map[]
    ensures var rows := ClaimUnpublished(s.db, s.now, {}, cfg.limit);
            var steps := OpenSteps(|Take(rows, i)|) + [Rollback(0)];
            && Legal(cfg, s, steps)
            && var t := Run(cfg, s, steps);
               && t.db == s.db && t.stream == PublishRows(s.db.outbox, s.stream, s.now, Take(rows, i)).stream
               && t.now == s.now && t.tasks == s.tasks && t.recons == map[]
  {
    hide Inv, Next, Legal, Run, PublishRows, ClaimUnpublished, OpenSteps;
    var rows := ClaimUnpublished(s.db, s.now, {}, cfg.limit);
    var k := |Take(rows, i)|;
    OpenIsRun(cfg, base, s, k);
    assert rows[..k] == Take(rows, i);
    RunSnoc(cfg, base, s, OpenSteps(k), Rollback(0));
    RollbackShape(cfg, Run(cfg, s, OpenSteps(k)));
  }

  // ---------- How many calls it takes ----------

  function AfterCalls(cfg: Config, db: Db, b: Stream, now: int, k: nat): (Db, Stream) {
    if k == 0 then (db, b)
    else
      var (mid, stream) := AfterCalls(cfg, db, b, now, k - 1);
      AfterCall(cfg, mid, stream, now)
  }

  ghost predicate MarksRows(marks: map<nat, Mark>, rows: seq<nat>, now: int) {
    (forall o: nat :: o in marks <==> o in rows) && forall o: nat | o in marks :: marks[o].at == now
  }

  lemma {:induction false} MarksOfRows(outbox: map<nat, OutboxRow>, b: Stream, now: int, rows: seq<nat>)
    requires forall i | 0 <= i < |rows| :: rows[i] in outbox
    ensures MarksRows(PublishRows(outbox, b, now, rows).marks, rows, now)
  {
    if rows != [] {
      var n := |rows| - 1;
      MarksOfRows(outbox, b, now, rows[..n]);
      hide MessageLive, Enqueue;
      assert rows == rows[..n] + [rows[n]];
    }
  }

  /** After a call exactly the rows it claimed are no longer claimable. */
  lemma CallClaims(cfg: Config, db: Db, b: Stream, now: int)
    requires WellFormed(db)
    ensures var next := AfterCall(cfg, db, b, now).0;
            && WellFormed(next) && next.nextOutbox == db.nextOutbox
            && forall o: nat :: Claimable(next, now, {}, o)
                                <==> Claimable(db, now, {}, o) && o !in ClaimUnpublished(db, now, {}, cfg.limit)
  {
    var rows := ClaimUnpublished(db, now, {}, cfg.limit);
    ClaimedExist(db, now, cfg.limit);
    MarksOfRows(db.outbox, b, now, rows);
    hide ClaimUnpublished;
    CommittedClaims(db, PublishRows(db.outbox, b, now, rows).marks, rows, now, ExpiredRows(db, now - cfg.retention));
  }

  lemma CommittedClaims(db: Db, marks: map<nat, Mark>, rows: seq<nat>, now: int, deleted: set<nat>)
    requires WellFormed(db) && MarksRows(marks, rows, now)
    requires forall o | o in deleted && o in db.outbox :: IsTerminal(db, db.outbox[o].eventId)
    ensures var next := db.(outbox := CommitOutbox(db.outbox, marks, deleted));
            && WellFormed(next)
            && forall o: nat :: Claimable(next, now, {}, o) <==> Claimable(db, now, {}, o) && o !in rows
  {}

  lemma CallTakesFirst(cfg: Config, db: Db, b: Stream, now: int)
    requires WellFormed(db)
    ensures var next := AfterCall(cfg, db, b, now).0;
            WellFormed(next) && AllClaimable(next, now, {}) == Drop(AllClaimable(db, now, {}), cfg.limit)
  {
    var next := AfterCall(cfg, db, b, now).0;
    CallClaims(cfg, db, b, now);
    ClaimableBelowExact(db, now, {}, db.nextOutbox);
    ClaimableBelowExact(next, now, {}, next.nextOutbox);
    hide Claimable, ClaimableBelow, AfterCall;
    var all, left := AllClaimable(db, now, {}), AllClaimable(next, now, {});
    DropMembers(all, cfg.limit);
    assert forall o | Claimable(db, now, {}, o) :: o in all;
    KnownBelow(db, now);
    KnownBelow(next, now);
    AscendingUnique(left, Drop(all, cfg.limit));
  }

  lemma KnownBelow(db: Db, now: int)
    requires WellFormed(db)
    ensures forall o: nat :: Claimable(db, now, {}, o) ==> o < db.nextOutbox
  {}

  lemma {:induction false} CallsTakeFirst(cfg: Config, db: Db, b: Stream, now: int, k: nat)
    requires WellFormed(db)
    ensures var next := AfterCalls(cfg, db, b, now, k).0;
            WellFormed(next) && AllClaimable(next, now, {}) == Drop(AllClaimable(db, now, {}), k * cfg.limit)
  {
    hide AfterCall, AllClaimable, WellFormed;
    if k != 0 {
      var (mid, stream) := AfterCalls(cfg, db, b, now, k - 1);
      CallsTakeFirst(cfg, db, b, now, k - 1);
      CallTakesFirst(cfg, mid, stream, now);
      assert k * cfg.limit == (k - 1) * cfg.limit + cfg.limit;
    }
  }

  /** With the clock held, n claimable rows are all handled by n / limit calls, rounded up, and by no fewer. */
  lemma CallsHandleAll(cfg: Config, db: Db, b: Stream, now: int, k: nat)
    requires WellFormed(db) && 0 < cfg.limit
    ensures AllClaimable(AfterCalls(cfg, db, b, now, k).0, now, {}) == []
            <==> Rounds(|AllClaimable(db, now, {})|, cfg.limit) <= k
  {
    var n := |AllClaimable(db, now, {})|;
    hide AfterCalls, AllClaimable;
    CallsTakeFirst(cfg, db, b, now, k);
    EnoughRounds(n, cfg.limit, k);
  }

  lemma EnoughRounds(n: nat, limit: nat, k: nat)
    requires 0 < limit
    ensures n <= k * limit <==> Rounds(n, limit) <= k
  {
    var r := Rounds(n, limit);
    RoundsExact(n, limit);
    assert n == 0 ==> r == 0;
    hide Rounds;
    if r <= k {
      TimesKeepsOrder(r, k, limit);
    } else if 0 < n {
      TimesKeepsOrder(k, r - 1, limit);
    }
  }

  lemma TimesKeepsOrder(a: nat, b: nat, c: nat)
    requires a <= b
    ensures 0 <= a * c <= b * c
  {
    assert b * c == a * c + (b - a) * c;
  }

  function Ingests(bodies: seq<EventIn>): seq<Step> {
    if bodies == [] then [] else Ingests(bodies[..|bodies| - 1]) + [Ingest(bodies[|bodies| - 1])]
  }

  /** A committed batch is its surviving items ingested one after the other. */
  lemma {:induction false} BatchIsRun(cfg: Config, base: map<CustomerId, Customer>, s: Sys, bodies: seq<EventIn>)
    requires Inv(cfg, base, s)
    ensures Legal(cfg, s, Ingests(bodies))
    ensures var t := Run(cfg, s, Ingests(bodies));
            && t.db == PersistAll(s.db, bodies, s.now) && t.now == s.now && t.stream == s.stream && t.recons == s.recons
  {
    if bodies != [] {
      var n := |bodies| - 1;
      var step := Ingest(bodies[n]);
      BatchIsRun(cfg, base, s, bodies[..n]);
      hide PersistOne;
      var a := Run(cfg, s, Ingests(bodies[..n]));
      InvRun(cfg, base, s, Ingests(bodies[..n]));
      hide Inv;
      InvStep(cfg, base, a, step);
      OneStep(cfg, base, a, step);
      RunConcat(cfg, s, Ingests(bodies[..n]), [step]);
    } else {
      StreamFacts(cfg, base, s);
    }
  }

  // ---------- The retry and acknowledge loop ----------

  /** What the loop does for one message from attempt `a` on; `ok` says whether processing succeeds. */
  function MessageSteps(cfg: Config, ok: bool, faults: seq<bool>, a: nat, w: nat): seq<Step>
    requires |faults| == cfg.maxRetries + 1 && a <= |faults|
    decreases |faults| - a
  {
    if a == |faults| then [DeadLetter(w)]
    else if faults[a] then [Hiccup(w)] + MessageSteps(cfg, ok, faults, a + 1, w)
    else if ok then [Attempt(w)]
    else [Attempt(w)] + MessageSteps(cfg, ok, faults, a + 1, w)
  }

  /** Worker `w` is about to make attempt `a` at the first of `msgs`. */
  ghost predicate AtHead(s: Sys, w: nat, msgs: seq<Msg>, a: nat) {
    w in s.tasks && msgs != [] && s.tasks[w] == Task(msgs, a, false, false)
  }

  /** The first message is settled, and nothing but the database and the worker's task has changed. */
  ghost predicate HeadSettled(s: Sys, t: Sys, w: nat, msgs: seq<Msg>, db: Db) {
    && t.db == db && t.now == s.now && t.stream == s.stream && t.recons == s.recons
    && w in t.tasks && t.tasks[w].msgs == msgs && t.tasks[w].handled && t.tasks - {w} == s.tasks - {w}
  }

  /** The worker's next attempt has failed, and nothing else has happened. */
  ghost predicate OnlyAttempted(s: Sys, t: Sys, w: nat, msgs: seq<Msg>, a: nat) {
    && AtHead(t, w, msgs, a)
    && t.db == s.db && t.now == s.now && t.stream == s.stream && t.recons == s.recons
    && t.tasks - {w} == s.tasks - {w}
  }

  lemma HiccupShape(cfg: Config, s: Sys, w: nat, msgs: seq<Msg>, a: nat)
    requires AtHead(s, w, msgs, a) && a <= cfg.maxRetries && Valid(s.stream)
    ensures Enabled(cfg, s, Hiccup(w)) && OnlyAttempted(s, Next(cfg, s, Hiccup(w)), w, msgs, a + 1)
  {
    hide NextHistory;
  }

  lemma TryShape(cfg: Config, s: Sys, w: nat, msgs: seq<Msg>, a: nat)
    requires AtHead(s, w, msgs, a) && a <= cfg.maxRetries && Valid(s.stream)
    ensures Enabled(cfg, s, Attempt(w))
    ensures var r, t := Process(cfg.q, s.db, msgs[0].payload, s.now), Next(cfg, s, Attempt(w));
            if r.Ok? then HeadSettled(s, t, w, msgs, r.value) else OnlyAttempted(s, t, w, msgs, a + 1)
  {
    hide NextHistory, Process;
  }

  lemma FileShape(cfg: Config, s: Sys, w: nat, msgs: seq<Msg>)
    requires AtHead(s, w, msgs, cfg.maxRetries + 1) && Valid(s.stream)
    ensures Enabled(cfg, s, DeadLetter(w))
    ensures HeadSettled(s, Next(cfg, s, DeadLetter(w)), w, msgs, Fail(s.db, msgs[0].payload, cfg.maxRetries))
  {
    hide NextHistory, Fail;
  }

  lemma RunCons(cfg: Config, s: Sys, step: Step, rest: seq<Step>)
    requires Valid(s.stream) && Enabled(cfg, s, step) && Legal(cfg, Next(cfg, s, step), rest)
    ensures Legal(cfg, s, [step] + rest) && Run(cfg, s, [step] + rest) == Run(cfg, Next(cfg, s, step), rest)
  {
    hide Enabled, Next;
    assert ([step] + rest)[1..] == rest;
  }

  /** HandleMessage, for every pattern of transient faults, is a run of the worker's attempts. */
  lemma {:induction false} MessageIsRun(cfg: Config, base: map<CustomerId, Customer>, s: Sys, w: nat, msgs: seq<Msg>,
                                        faults: seq<bool>, a: nat)
    requires Inv(cfg, base, s) && |faults| == cfg.maxRetries + 1 && a <= |faults| && AtHead(s, w, msgs, a)
    requires SomeAttemptRuns(faults[..a]) ==> Process(cfg.q, s.db, msgs[0].payload, s.now).Err?
    ensures var steps := MessageSteps(cfg, Process(cfg.q, s.db, msgs[0].payload, s.now).Ok?, faults, a, w);
            && Legal(cfg, s, steps)
            && HeadSettled(s, Run(cfg, s, steps), w, msgs, SettleWith(cfg, s.db, msgs[0].payload, s.now, faults))
    decreases |faults| - a, 0
  {
    hide Inv, Enabled, Next, Legal, Run, Process, Fail, AtHead, OnlyAttempted, SettleWith, SomeAttemptRuns, HeadSettled;
    HeadExists(s, w, msgs, a);
    var p := msgs[0].payload;
    StreamFacts(cfg, base, s);
    if a == |faults| {
      assert faults[..a] == faults;
      NoAttemptWorks(cfg, s.db, p, s.now, faults);
      FileShape(cfg, s, w, msgs);
      OneStep(cfg, base, s, DeadLetter(w));
    } else if !faults[a] && Process(cfg.q, s.db, p, s.now).Ok? {
      AttemptWorks(cfg, s.db, p, s.now, faults, a);
      TryShape(cfg, s, w, msgs, a);
      OneStep(cfg, base, s, Attempt(w));
    } else {
      NextAttempt(cfg, s, w, msgs, faults, a);
      var step := if faults[a] then Hiccup(w) else Attempt(w);
      OneStep(cfg, base, s, step);
      RestIsRun(cfg, base, s, Next(cfg, s, step), w, msgs, faults, a + 1);
      RunCons(cfg, s, step, MessageSteps(cfg, Process(cfg.q, s.db, p, s.now).Ok?, faults, a + 1, w));
    }
  }

  lemma NoAttemptWorks(cfg: Config, db: Db, p: Payload, now: int, faults: seq<bool>)
    requires SomeAttemptRuns(faults) ==> Process(cfg.q, db, p, now).Err?
    ensures SettleWith(cfg, db, p, now, faults) == Fail(db, p, cfg.maxRetries)
  {
    hide Process, Fail;
  }

  lemma AttemptWorks(cfg: Config, db: Db, p: Payload, now: int, faults: seq<bool>, a: nat)
    requires a < |faults| && !faults[a] && Process(cfg.q, db, p, now).Ok?
    ensures SettleWith(cfg, db, p, now, faults) == Process(cfg.q, db, p, now).value
  {
    hide Process;
  }

  lemma NextAttempt(cfg: Config, s: Sys, w: nat, msgs: seq<Msg>, faults: seq<bool>, a: nat)
    requires AtHead(s, w, msgs, a) && a < |faults| == cfg.maxRetries + 1 && Valid(s.stream)
    requires SomeAttemptRuns(faults[..a]) ==> Process(cfg.q, s.db, msgs[0].payload, s.now).Err?
    requires faults[a] || Process(cfg.q, s.db, msgs[0].payload, s.now).Err?
    ensures SomeAttemptRuns(faults[..a + 1]) ==> Process(cfg.q, s.db, msgs[0].payload, s.now).Err?
    ensures var step := if faults[a] then Hiccup(w) else Attempt(w);
            Enabled(cfg, s, step) && OnlyAttempted(s, Next(cfg, s, step), w, msgs, a + 1)
  {
    HiccupShape(cfg, s, w, msgs, a);
    TryShape(cfg, s, w, msgs, a);
    hide Process, Next, Enabled, OnlyAttempted, AtHead;
    assert faults[..a + 1] == faults[..a] + [faults[a]];
  }

  lemma HeadExists(s: Sys, w: nat, msgs: seq<Msg>, a: nat)
    requires AtHead(s, w, msgs, a)
    ensures msgs != [] && w in s.tasks
  {}

  /** The attempts after one that failed, seen from the state before it. */
  lemma {:induction false} RestIsRun(cfg: Config, base: map<CustomerId, Customer>, s: Sys, t: Sys, w: nat,
                                     msgs: seq<Msg>, faults: seq<bool>, a: nat)
    requires Inv(cfg, base, t) && |faults| == cfg.maxRetries + 1 && a <= |faults|
    requires OnlyAttempted(s, t, w, msgs, a)
    requires SomeAttemptRuns(faults[..a]) ==> Process(cfg.q, s.db, msgs[0].payload, s.now).Err?
    ensures var steps := MessageSteps(cfg, Process(cfg.q, s.db, msgs[0].payload, s.now).Ok?, faults, a, w);
            && Legal(cfg, t, steps)
            && HeadSettled(s, Run(cfg, t, steps), w, msgs, SettleWith(cfg, s.db, msgs[0].payload, s.now, faults))
    decreases |faults| - a, 1
  {
    hide Inv, Legal, Run, Process, SettleWith, MessageSteps;
    MessageIsRun(cfg, base, t, w, msgs, faults, a);
  }

  ghost predicate BatchInput(cfg: Config, msgs: seq<Msg>, faults: seq<seq<bool>>) {
    |faults| == |msgs| && forall i | 0 <= i < |faults| :: |faults[i]| == cfg.maxRetries + 1
  }

  /** The database after the first k messages. */
  ghost function SettledDb(cfg: Config, s: Sys, msgs: seq<Msg>, faults: seq<seq<bool>>, k: nat): Db
    requires BatchInput(cfg, msgs, faults) && k <= |msgs|
  {
    SettleAll(cfg, s.db, msgs[..k], s.now, faults[..k])
  }

  /** What the loop does for message `k`, when the ones before it are settled. */
  ghost function SettleSteps(cfg: Config, s: Sys, w: nat, msgs: seq<Msg>, faults: seq<seq<bool>>, k: nat): seq<Step>
    requires BatchInput(cfg, msgs, faults) && k < |msgs|
  {
    var r := Process(cfg.q, SettledDb(cfg, s, msgs, faults, k), msgs[k].payload, s.now);
    MessageSteps(cfg, r.Ok?, faults[k], 0, w)
  }

  /** What it does for the first k messages, acknowledgements included. */
  ghost function BatchSteps(cfg: Config, s: Sys, w: nat, msgs: seq<Msg>, faults: seq<seq<bool>>, k: nat): seq<Step>
    requires BatchInput(cfg, msgs, faults) && k <= |msgs|
  {
    if k == 0 then []
    else BatchSteps(cfg, s, w, msgs, faults, k - 1) + SettleSteps(cfg, s, w, msgs, faults, k - 1) + [Acknowledge(w)]
  }

  /** From `s` on, the first k messages have been settled and acknowledged, and nothing else has happened. */
  ghost predicate BatchAt(cfg: Config, s: Sys, t: Sys, w: nat, msgs: seq<Msg>, faults: seq<seq<bool>>, k: nat)
    requires BatchInput(cfg, msgs, faults) && k <= |msgs|
  {
    && t.db == SettledDb(cfg, s, msgs, faults, k) && t.stream == AckAll(s.stream, msgs[..k])
    && t.now == s.now && t.recons == s.recons && t.tasks - {w} == s.tasks - {w}
    && (if k < |msgs| then AtHead(t, w, msgs[k..], 0) else w !in t.tasks)
  }

  lemma SettleMore(cfg: Config, s: Sys, msgs: seq<Msg>, faults: seq<seq<bool>>, k: nat)
    requires BatchInput(cfg, msgs, faults) && k < |msgs|
    ensures SettledDb(cfg, s, msgs, faults, k + 1)
            == SettleWith(cfg, SettledDb(cfg, s, msgs, faults, k), msgs[k].payload, s.now, faults[k])
    ensures AckAll(s.stream, msgs[..k + 1]) == Ack(AckAll(s.stream, msgs[..k]), msgs[k].mid)
  {
    hide SettleWith;
    assert msgs[..k + 1][..k] == msgs[..k] && faults[..k + 1][..k] == faults[..k];
  }

  lemma SettleNext(cfg: Config, base: map<CustomerId, Customer>, s: Sys, steps: seq<Step>, w: nat, msgs: seq<Msg>,
                   faults: seq<seq<bool>>, k: nat)
    requires Inv(cfg, base, s) && Legal(cfg, s, steps) && BatchInput(cfg, msgs, faults) && k < |msgs|
    requires BatchAt(cfg, s, Run(cfg, s, steps), w, msgs, faults, k)
    ensures var more := steps + SettleSteps(cfg, s, w, msgs, faults, k);
            && Legal(cfg, s, more)
            && HeadSettled(Run(cfg, s, steps), Run(cfg, s, more), w, msgs[k..], SettledDb(cfg, s, msgs, faults, k + 1))
  {
    hide Inv, Legal, Run, Process, HeadSettled, SettledDb, MessageSteps, SettleWith, AckAll;
    var a := Run(cfg, s, steps);
    InvRun(cfg, base, s, steps);
    assert faults[k][..0] == [];
    NothingRan();
    MessageIsRun(cfg, base, a, w, msgs[k..], faults[k], 0);
    RunConcat(cfg, s, steps, SettleSteps(cfg, s, w, msgs, faults, k));
    SettleMore(cfg, s, msgs, faults, k);
  }

  lemma NothingRan()
    ensures !SomeAttemptRuns([])
  {}

  lemma AckShape(cfg: Config, s: Sys, a: Sys, b: Sys, w: nat, msgs: seq<Msg>, faults: seq<seq<bool>>, k: nat)
    requires BatchInput(cfg, msgs, faults) && k < |msgs| && BatchAt(cfg, s, a, w, msgs, faults, k) && Valid(b.stream)
    requires HeadSettled(a, b, w, msgs[k..], SettledDb(cfg, s, msgs, faults, k + 1))
    ensures Enabled(cfg, b, Acknowledge(w)) && BatchAt(cfg, s, Next(cfg, b, Acknowledge(w)), w, msgs, faults, k + 1)
  {
    SettleMore(cfg, s, msgs, faults, k);
    assert msgs[k..][1..] == msgs[k + 1..];
    AckTask(cfg, b, w, msgs[k..]);
    hide Next, NextDb, NextStream, NextHistory, SettledDb, AckAll;
  }

  lemma AckTask(cfg: Config, s: Sys, w: nat, msgs: seq<Msg>)
    requires w in s.tasks && msgs != [] && s.tasks[w].msgs == msgs && s.tasks[w].handled && Valid(s.stream)
    ensures Enabled(cfg, s, Acknowledge(w))
    ensures var t := Next(cfg, s, Acknowledge(w));
            && t.db == s.db && t.now == s.now && t.recons == s.recons && t.stream == Ack(s.stream, msgs[0].mid)
            && t.tasks - {w} == s.tasks - {w}
            && (if msgs[1..] == [] then w !in t.tasks else AtHead(t, w, msgs[1..], 0))
  {
    hide NextHistory;
  }

  lemma {:induction false} BatchAtRun(cfg: Config, base: map<CustomerId, Customer>, s: Sys, w: nat, msgs: seq<Msg>,
                                      faults: seq<seq<bool>>, k: nat)
    requires Inv(cfg, base, s) && AtHead(s, w, msgs, 0) && BatchInput(cfg, msgs, faults) && k <= |msgs|
    ensures Legal(cfg, s, BatchSteps(cfg, s, w, msgs, faults, k))
    ensures BatchAt(cfg, s, Run(cfg, s, BatchSteps(cfg, s, w, msgs, faults, k)), w, msgs, faults, k)
  {
    StreamFacts(cfg, base, s);
    if k == 0 {
      assert msgs[0..] == msgs && msgs[..0] == [] && faults[..0] == [];
    } else {
      hide Inv, Legal, Run, Next, Enabled, HeadSettled, BatchAt, SettleSteps;
      BatchAtRun(cfg, base, s, w, msgs, faults, k - 1);
      var before := BatchSteps(cfg, s, w, msgs, faults, k - 1);
      var settled := before + SettleSteps(cfg, s, w, msgs, faults, k - 1);
      SettleNext(cfg, base, s, before, w, msgs, faults, k - 1);
      InvRun(cfg, base, s, settled);
      StreamFacts(cfg, base, Run(cfg, s, settled));
      AckShape(cfg, s, Run(cfg, s, before), Run(cfg, s, settled), w, msgs, faults, k - 1);
      RunSnoc(cfg, base, s, settled, Acknowledge(w));
    }
  }

  /**
   * HandleBatch, for every pattern of transient faults, is a run of the worker's steps: all messages are settled and
   * acknowledged, or the last one settled is not, and the worker abandons the rest.
   */
  lemma HandleBatchIsRun(cfg: Config, base: map<CustomerId, Customer>, s: Sys, w: nat, msgs: seq<Msg>,
                         faults: seq<seq<bool>>, ackFails: Option<nat>)
    requires Inv(cfg, base, s) && AtHead(s, w, msgs, 0) && BatchInput(cfg, msgs, faults)
    ensures var lost := ackFails.Some? && ackFails.value < |msgs|;
            var acked := if lost then ackFails.value else |msgs|;
            var settled := if lost then acked + 1 else acked;
            var steps := BatchSteps(cfg, s, w, msgs, faults, acked)
                         + if lost then SettleSteps(cfg, s, w, msgs, faults, acked) + [Abandon(w)] else [];
            && Legal(cfg, s, steps)
            && var t := Run(cfg, s, steps);
               && t.db == SettleAll(cfg, s.db, msgs[..settled], s.now, faults[..settled])
               && t.stream == AckAll(s.stream, msgs[..acked])
               && t.now == s.now && t.recons == s.recons && t.tasks == s.tasks - {w}
  {
    hide Inv, Legal, Run, Next, Enabled, SettleAll, AckAll, SettleSteps, BatchSteps;
    if ackFails.Some? && ackFails.value < |msgs| {
      var k := ackFails.value;
      var before := BatchSteps(cfg, s, w, msgs, faults, k);
      var settled := before + SettleSteps(cfg, s, w, msgs, faults, k);
      BatchAtRun(cfg, base, s, w, msgs, faults, k);
      SettleNext(cfg, base, s, before, w, msgs, faults, k);
      InvRun(cfg, base, s, settled);
      StreamFacts(cfg, base, Run(cfg, s, settled));
      AbandonShape(cfg, Run(cfg, s, settled), w);
      RunSnoc(cfg, base, s, settled, Abandon(w));
      assert settled + [Abandon(w)] == before + (SettleSteps(cfg, s, w, msgs, faults, k) + [Abandon(w)]);
    } else {
      BatchAtRun(cfg, base, s, w, msgs, faults, |msgs|);
      var steps := BatchSteps(cfg, s, w, msgs, faults, |msgs|);
      assert steps + [] == steps;
      var t := Run(cfg, s, steps);
      assert t.tasks == t.tasks - {w};
    }
  }

  lemma AbandonShape(cfg: Config, s: Sys, w: nat)
    requires w in s.tasks && Valid(s.stream)
    ensures Enabled(cfg, s, Abandon(w))
    ensures var t := Next(cfg, s, Abandon(w));
            && t.db == s.db && t.now == s.now && t.stream == s.stream && t.recons == s.recons
            && t.tasks == s.tasks - {w}
  {
    hide NextHistory;
  }
}
