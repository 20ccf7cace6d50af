/** No event is ever stuck: from every reachable state the pipeline, left to work, makes every event terminal. */
module Progress {
  import opened Types
  import opened Database
  import opened Broker
  import opened Pipeline
  import opened Safety
  import opened Runs

  /** Steps of components doing their work: no crash, rollback, transient error or loss, and nothing new coming in. */
  predicate FaultFree(step: Step) {
    match step
    case Tick(_) => true
    case Claim(_, _) => true
    case Advance(_) => true
    case Snapshot(_) => true
    case Commit(_, _) => true
    case Read(_, _) => true
    case Takeover(_, _) => true
    case Attempt(_) => true
    case DeadLetter(_) => true
    case Acknowledge(_) => true
    case _ => false
  }

  ghost predicate WorksTo(cfg: Config, s: Sys, t: Sys) {
    exists steps ::
      && Legal(cfg, s, steps) && Run(cfg, s, steps) == t
      && forall i | 0 <= i < |steps| :: FaultFree(steps[i])
  }

  lemma WorksHere(cfg: Config, s: Sys)
    requires Valid(s.stream)
    ensures WorksTo(cfg, s, s)
  {
    assert Run(cfg, s, []) == s;
  }

  lemma WorksStep(cfg: Config, base: map<CustomerId, Customer>, s: Sys, step: Step)
    requires Inv(cfg, base, s) && Enabled(cfg, s, step) && FaultFree(step)
    ensures Valid(s.stream) && WorksTo(cfg, s, Next(cfg, s, step)) && Inv(cfg, base, Next(cfg, s, step))
  {
    hide Inv, Enabled, Next, Legal, Run, FaultFree, WorksTo;
    OneStep(cfg, base, s, step);
    WorksBy(cfg, s, [step]);
  }

  lemma WorksBy(cfg: Config, s: Sys, steps: seq<Step>)
    requires Legal(cfg, s, steps) && forall i | 0 <= i < |steps| :: FaultFree(steps[i])
    ensures WorksTo(cfg, s, Run(cfg, s, steps))
  {
    hide Legal, Run, FaultFree;
  }

  lemma WorksOn(cfg: Config, s: Sys, t: Sys, u: Sys)
    requires WorksTo(cfg, s, t) && WorksTo(cfg, t, u)
    ensures WorksTo(cfg, s, u)
  {
    hide Legal, Run;
    var a :| Legal(cfg, s, a) && Run(cfg, s, a) == t && forall i | 0 <= i < |a| :: FaultFree(a[i]);
    var b :| Legal(cfg, t, b) && Run(cfg, t, b) == u && forall i | 0 <= i < |b| :: FaultFree(b[i]);
    RunConcat(cfg, s, a, b);
    var c := a + b;
    assert Legal(cfg, s, c) && Run(cfg, s, c) == u;
  }

  // ---------- Finishing a reconcile ----------

  /** Entries have been added at most, and none of them has been delivered. */
  ghost predicate Grows(b: Stream, next: Stream) {
    && b.pel == next.pel && b.cursor == next.cursor
    && forall m | m in b.entries :: m in next.entries && next.entries[m] == b.entries[m]
  }

  /** Everything but the stream and one reconcile transaction is as it was. */
  ghost predicate OnlyRecon(s: Sys, t: Sys, r: nat) {
    && t.db == s.db && t.now == s.now && t.tasks == s.tasks
    && r in t.recons && t.recons == s.recons[r := t.recons[r]]
    && Grows(s.stream, t.stream)
  }

  lemma ReconFacts(cfg: Config, base: map<CustomerId, Customer>, s: Sys, r: nat)
    requires Inv(cfg, base, s) && r in s.recons
    ensures Valid(s.stream) && ReconValid(s.recons[r]) && Locked(s.recons[r]) <= s.db.outbox.Keys
  {}

  /** What advancing one row does to the transaction. */
  ghost predicate RowDone(rc: Recon, next: Recon, now: int, b: Stream) {
    && rc.todo != [] && next.todo == rc.todo[1..] && next.doomed == rc.doomed && next.decided == rc.decided
    && rc.todo[0] in next.marks && next.marks == rc.marks[rc.todo[0] := next.marks[rc.todo[0]]]
    && next.marks[rc.todo[0]].at == now && next.marks[rc.todo[0]].mid in b.entries
  }

  lemma AdvanceShape(cfg: Config, s: Sys, r: nat)
    requires Enabled(cfg, s, Advance(r)) && Valid(s.stream)
    ensures var t := Next(cfg, s, Advance(r));
            OnlyRecon(s, t, r) && RowDone(s.recons[r], t.recons[r], s.now, t.stream)
  {
    hide NextHistory;
  }

  lemma AdvanceEffect(cfg: Config, base: map<CustomerId, Customer>, s: Sys, r: nat) returns (t: Sys)
    requires Inv(cfg, base, s) && r in s.recons && s.recons[r].todo != []
    ensures WorksTo(cfg, s, t) && Inv(cfg, base, t) && OnlyRecon(s, t, r)
    ensures RowDone(s.recons[r], t.recons[r], s.now, t.stream)
  {
    hide Inv, WorksTo, Next;
    ReconFacts(cfg, base, s, r);
    assert s.recons[r].todo[0] in Locked(s.recons[r]);
    WorksStep(cfg, base, s, Advance(r));
    AdvanceShape(cfg, s, r);
    t := Next(cfg, s, Advance(r));
  }

  /** What advancing every row does to the transaction. */
  ghost predicate AllDone(rc: Recon, next: Recon, now: int, b: Stream) {
    && next.todo == [] && next.doomed == rc.doomed && next.decided == rc.decided
    && next.marks.Keys == Locked(rc)
    && (forall o | o in rc.marks && o !in rc.todo :: o in next.marks && next.marks[o] == rc.marks[o])
    && (forall o | o in rc.todo :: o in next.marks && next.marks[o].at == now && next.marks[o].mid in b.entries)
  }

  lemma AllDoneCons(rc: Recon, mid: Recon, next: Recon, now: int, b: Stream, c: Stream)
    requires ReconValid(rc) && RowDone(rc, mid, now, b) && AllDone(mid, next, now, c) && Grows(b, c)
    ensures AllDone(rc, next, now, c)
  {
    assert rc.todo == [rc.todo[0]] + mid.todo;
    assert rc.todo[0] !in mid.todo by {
      assert forall j | 0 <= j < |mid.todo| :: mid.todo[j] == rc.todo[j + 1];
    }
    assert Locked(mid) == Locked(rc);
  }

  lemma {:induction false} AdvanceAll(cfg: Config, base: map<CustomerId, Customer>, s: Sys, r: nat) returns (t: Sys)
    requires Inv(cfg, base, s) && r in s.recons
    ensures WorksTo(cfg, s, t) && Inv(cfg, base, t) && OnlyRecon(s, t, r)
    ensures AllDone(s.recons[r], t.recons[r], s.now, t.stream)
    decreases |s.recons[r].todo|
  {
    hide Inv, WorksTo;
    ReconFacts(cfg, base, s, r);
    if s.recons[r].todo == [] {
      WorksHere(cfg, s);
      t := s;
    } else {
      var mid := AdvanceEffect(cfg, base, s, r);
      t := AdvanceAll(cfg, base, mid, r);
      hide AllDone, ReconValid;
      AllDoneCons(s.recons[r], mid.recons[r], t.recons[r], s.now, mid.stream, t.stream);
      WorksOn(cfg, s, mid, t);
    }
  }

  /** What a reconcile has done once it has committed. */
  ghost predicate Committed(rc: Recon, s: Sys, t: Sys) {
    && t.now == s.now && t.tasks == s.tasks && Grows(s.stream, t.stream)
    && t.db == s.db.(outbox := t.db.outbox)
    && (forall o | o in t.db.outbox :: o in s.db.outbox)
    && (forall o | o in t.db.outbox && o !in Locked(rc) :: t.db.outbox[o] == s.db.outbox[o])
    && (forall o | o in t.db.outbox && o in rc.todo ::
          && t.db.outbox[o].eventId == s.db.outbox[o].eventId && t.db.outbox[o].publishedAt == Some(s.now)
          && MessageLive(t.db.outbox[o], t.stream))
    && (!rc.decided ==> forall o | o in s.db.outbox && IsPending(s.db, s.db.outbox[o].eventId) :: o in t.db.outbox)
  }

  lemma SnapshotShape(cfg: Config, s: Sys, r: nat)
    requires Enabled(cfg, s, Snapshot(r)) && Valid(s.stream)
    ensures var t := Next(cfg, s, Snapshot(r));
            && OnlyRecon(s, t, r) && t.stream == s.stream
            && t.recons[r] == s.recons[r].(doomed := ExpiredRows(s.db, s.now - cfg.retention), decided := true)
  {
    hide NextHistory;
  }

  /** Decide on the cleanup, unless that has happened. */
  lemma Decide(cfg: Config, base: map<CustomerId, Customer>, s: Sys, r: nat) returns (t: Sys)
    requires Inv(cfg, base, s) && r in s.recons && s.recons[r].todo == []
    ensures WorksTo(cfg, s, t) && Inv(cfg, base, t) && OnlyRecon(s, t, r)
    ensures t.recons[r].decided && t.recons[r].marks == s.recons[r].marks && t.stream == s.stream
    ensures !s.recons[r].decided ==> t.recons[r].doomed == ExpiredRows(s.db, s.now - cfg.retention)
  {
    hide Inv, WorksTo, Next, ExpiredRows;
    ReconFacts(cfg, base, s, r);
    if s.recons[r].decided {
      WorksHere(cfg, s);
      t := s;
    } else {
      WorksStep(cfg, base, s, Snapshot(r));
      SnapshotShape(cfg, s, r);
      t := Next(cfg, s, Snapshot(r));
    }
  }

  lemma CommitShape(cfg: Config, s: Sys, r: nat, deleted: set<nat>)
    requires Enabled(cfg, s, Commit(r, deleted)) && Valid(s.stream)
    ensures var t := Next(cfg, s, Commit(r, deleted));
            && t.now == s.now && t.tasks == s.tasks && t.stream == s.stream && t.recons == s.recons - {r}
            && t.db == s.db.(outbox := CommitOutbox(s.db.outbox, s.recons[r].marks, deleted))
  {
    hide NextHistory;
  }

  lemma FinishRecon(cfg: Config, base: map<CustomerId, Customer>, s: Sys, r: nat) returns (t: Sys)
    requires Inv(cfg, base, s) && r in s.recons
    ensures WorksTo(cfg, s, t) && Inv(cfg, base, t)
    ensures t.recons == s.recons - {r} && Committed(s.recons[r], s, t)
  {
    hide Inv, WorksTo, Next;
    var a := AdvanceAll(cfg, base, s, r);
    var b := Decide(cfg, base, a, r);
    WorksOn(cfg, s, a, b);
    ReconFacts(cfg, base, b, r);
    var deleted := b.recons[r].doomed - AllLocked(b.recons - {r});
    WorksStep(cfg, base, b, Commit(r, deleted));
    CommitShape(cfg, b, r, deleted);
    t := Next(cfg, b, Commit(r, deleted));
    WorksOn(cfg, s, b, t);
    assert t.recons == s.recons - {r};
    hide Locked, AllLocked, Enabled;
    CommittedFrom(cfg, s, a, b, t, r, deleted);
  }

  lemma CommittedFrom(cfg: Config, s: Sys, a: Sys, b: Sys, t: Sys, r: nat, deleted: set<nat>)
    requires r in s.recons && OnlyRecon(s, a, r) && AllDone(s.recons[r], a.recons[r], s.now, a.stream)
    requires OnlyRecon(a, b, r) && b.recons[r].marks == a.recons[r].marks && deleted <= b.recons[r].doomed
    requires !s.recons[r].decided ==> b.recons[r].doomed == ExpiredRows(s.db, s.now - cfg.retention)
    requires t.now == b.now && t.tasks == b.tasks && t.stream == b.stream
    requires t.db == b.db.(outbox := CommitOutbox(b.db.outbox, b.recons[r].marks, deleted))
    ensures Committed(s.recons[r], s, t)
  {
    hide Locked;
    var rc := s.recons[r];
    assert forall o | o in rc.todo :: o in b.recons[r].marks;
  }

  lemma {:induction false} FinishAll(cfg: Config, base: map<CustomerId, Customer>, s: Sys) returns (t: Sys)
    requires Inv(cfg, base, s)
    ensures WorksTo(cfg, s, t) && Inv(cfg, base, t) && t.recons == map[]
    ensures t.now == s.now && t.tasks == s.tasks && t.db == s.db.(outbox := t.db.outbox)
    decreases |s.recons|
  {
    hide Inv, WorksTo;
    if s.recons == map[] {
      assert Valid(s.stream) by { StreamFacts(cfg, base, s); }
      WorksHere(cfg, s);
      t := s;
    } else {
      var r :| r in s.recons;
      var mid := FinishRecon(cfg, base, s, r);
      assert |mid.recons| < |s.recons|;
      t := FinishAll(cfg, base, mid);
      WorksOn(cfg, s, mid, t);
    }
  }
}
