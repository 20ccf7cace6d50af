/**
 * Steps whose message and event have moved apart: a message acknowledged although its event is pending again, and
 * dead letters written for an id without an event. For each, exactly the runs in which it happens.
 */
module Decisions {
  import opened Types
  import opened Scoring
  import opened Database
  import opened Broker
  import opened Pipeline
  import opened Accounting
  import opened Runs
  import opened Recovery

  // ---------- Runs with their states ----------

  /** States and steps in turn: state i, step i, state i + 1. */
  ghost predicate Steps(cfg: Config, states: seq<Sys>, steps: seq<Step>) {
    && |states| == |steps| + 1
    && forall i | 0 <= i < |steps| ::
         && Valid(states[i].stream) && Enabled(cfg, states[i], steps[i])
         && states[i + 1] == Next(cfg, states[i], steps[i])
  }

  /** Every run has its states. */
  lemma {:induction false} RunHasStates(cfg: Config, s: Sys, steps: seq<Step>) returns (states: seq<Sys>)
    requires Legal(cfg, s, steps)
    ensures Steps(cfg, states, steps) && states[0] == s && states[|steps|] == Run(cfg, s, steps)
    decreases |steps|
  {
    hide Enabled, Next;
    if steps == [] {
      states := [s];
    } else {
      var rest := RunHasStates(cfg, Next(cfg, s, steps[0]), steps[1..]);
      states := [s] + rest;
      forall i | 0 <= i < |steps|
        ensures Valid(states[i].stream) && Enabled(cfg, states[i], steps[i])
        ensures states[i + 1] == Next(cfg, states[i], steps[i])
      {
        if i > 0 {
          assert steps[i] == steps[1..][i - 1] && states[i] == rest[i - 1] && states[i + 1] == rest[i];
        }
      }
    }
  }

  lemma StepAt(cfg: Config, states: seq<Sys>, steps: seq<Step>, i: nat)
    requires Steps(cfg, states, steps) && i < |steps|
    ensures Valid(states[i].stream) && Enabled(cfg, states[i], steps[i])
    ensures states[i + 1] == Next(cfg, states[i], steps[i])
  {}

  // ---------- Acknowledged although pending ----------

  /** Worker `w` is done with the first of `msgs`, throughout from state `k` to state `i`. */
  ghost predicate DoneThroughout(states: seq<Sys>, w: nat, msgs: seq<Msg>, k: nat, i: nat)
    requires k <= i < |states|
  {
    forall l | k <= l <= i :: w in states[l].tasks && Decided(states[l].tasks[w]) && states[l].tasks[w].msgs == msgs
  }

  /** Step `k` makes the event pending: a replay of one of its dead letters, or its ingestion. */
  ghost predicate Reopens(states: seq<Sys>, steps: seq<Step>, k: nat, e: EventId)
    requires k < |steps| && |states| == |steps| + 1
  {
    && !IsPending(states[k].db, e) && IsPending(states[k + 1].db, e)
    && match steps[k]
       case Ingest(body) => body.eventId == e
       case Replayed(d) => d in states[k].db.dlq && states[k].db.dlq[d].eventId == e
       case _ => false
  }

  /** Step `k` ends the event's being pending. */
  ghost predicate Settles(states: seq<Sys>, steps: seq<Step>, k: nat, e: EventId)
    requires k < |steps| && |states| == |steps| + 1
  {
    IsPending(states[k].db, e) && !IsPending(states[k + 1].db, e)
  }

  /** Step `k` reopens the event when the worker is done with the message already, and nothing settles it up to `i`. */
  ghost predicate ReopenedBehind(states: seq<Sys>, steps: seq<Step>, w: nat, msgs: seq<Msg>, e: EventId, k: nat, i: nat)
    requires k < i <= |steps| && |states| == |steps| + 1
  {
    && Reopens(states, steps, k, e) && DoneThroughout(states, w, msgs, k, i)
    && forall l | k < l < i :: !Settles(states, steps, l, e)
  }

  lemma OnlyReopeningRaises(cfg: Config, s: Sys, step: Step, e: EventId)
    requires Enabled(cfg, s, step) && !IsPending(s.db, e) && IsPending(NextDb(cfg, s, step), e)
    ensures match step
            case Ingest(body) => body.eventId == e
            case Replayed(d) => d in s.db.dlq && s.db.dlq[d].eventId == e
            case _ => false
  {
    hide Absorb, Touch;
  }

  /** Becoming done with a message means that its event is not pending, or is not there. */
  lemma DecidingIsSettling(cfg: Config, s: Sys, step: Step, w: nat)
    requires Enabled(cfg, s, step) && Valid(s.stream) && step in {Attempt(w), DeadLetter(w), Look(w)}
    requires w in s.tasks && s.tasks[w].msgs != [] && !Decided(s.tasks[w]) && Decided(NextTasks(cfg, s, step)[w])
    ensures !IsPending(NextDb(cfg, s, step), FiledUnder(s.tasks[w].msgs[0].payload))
  {
    hide Absorb, Touch;
  }

  /** A pending event behind a decided message has been reopened since the decision. */
  lemma {:induction false} PendingMeansReopened(cfg: Config, states: seq<Sys>, steps: seq<Step>, w: nat, i: nat)
    returns (k: nat)
    requires Steps(cfg, states, steps) && states[0].tasks == map[] && i < |states|
    requires w in states[i].tasks && Decided(states[i].tasks[w])
    requires IsPending(states[i].db, FiledUnder(states[i].tasks[w].msgs[0].payload))
    ensures k < i
    ensures ReopenedBehind(states, steps, w, states[i].tasks[w].msgs,
        FiledUnder(states[i].tasks[w].msgs[0].payload), k, i)
  {
    var msgs := states[i].tasks[w].msgs;
    var e := FiledUnder(msgs[0].payload);
    hide Decided, DoneThroughout, ReopenedBehind;
    DecidedBack(cfg, states, steps, w, i);
    hide Steps;
    if IsPending(states[i - 1].db, e) {
      k := PendingMeansReopened(cfg, states, steps, w, i - 1);
      ReopenedStill(states, steps, w, msgs, e, k, i);
    } else {
      k := i - 1;
      ReopenedJust(states, steps, w, msgs, e, i);
    }
  }

  /** Before a decided message's event is pending, the decision stood already, or reopening is what has happened. */
  lemma DecidedBack(cfg: Config, states: seq<Sys>, steps: seq<Step>, w: nat, i: nat)
    requires Steps(cfg, states, steps) && 0 < i < |states|
    requires w in states[i].tasks && Decided(states[i].tasks[w])
    requires IsPending(states[i].db, FiledUnder(states[i].tasks[w].msgs[0].payload))
    ensures w in states[i - 1].tasks && Decided(states[i - 1].tasks[w])
    ensures states[i - 1].tasks[w].msgs == states[i].tasks[w].msgs
    ensures var e := FiledUnder(states[i].tasks[w].msgs[0].payload);
            IsPending(states[i - 1].db, e) || Reopens(states, steps, i - 1, e)
  {
    var s, step := states[i - 1], steps[i - 1];
    var e := FiledUnder(states[i].tasks[w].msgs[0].payload);
    StepAt(cfg, states, steps, i - 1);
    hide Steps, NextDb, NextStream, NextTasks, NextRecons, NextHistory, Enabled, IsPending;
    DecidedBefore(cfg, s, step, w);
    if !Decided(s.tasks[w]) {
      DecidingIsSettling(cfg, s, step, w);
    }
    if !IsPending(s.db, e) {
      OnlyReopeningRaises(cfg, s, step, e);
    }
  }

  lemma ReopenedStill(states: seq<Sys>, steps: seq<Step>, w: nat, msgs: seq<Msg>, e: EventId, k: nat, i: nat)
    requires 0 < i <= |steps| && |states| == |steps| + 1 && k < i - 1
    requires ReopenedBehind(states, steps, w, msgs, e, k, i - 1) && IsPending(states[i].db, e)
    requires w in states[i].tasks && Decided(states[i].tasks[w]) && states[i].tasks[w].msgs == msgs
    ensures ReopenedBehind(states, steps, w, msgs, e, k, i)
  {
    hide Decided, Reopens, IsPending;
  }

  lemma ReopenedJust(states: seq<Sys>, steps: seq<Step>, w: nat, msgs: seq<Msg>, e: EventId, i: nat)
    requires 0 < i <= |steps| && |states| == |steps| + 1 && Reopens(states, steps, i - 1, e)
    requires w in states[i - 1].tasks && Decided(states[i - 1].tasks[w]) && states[i - 1].tasks[w].msgs == msgs
    requires w in states[i].tasks && Decided(states[i].tasks[w]) && states[i].tasks[w].msgs == msgs
    ensures ReopenedBehind(states, steps, w, msgs, e, i - 1, i)
  {
    hide Decided, Reopens;
  }

  /** An event reopened and not settled since is pending. */
  lemma {:induction false} StillPending(states: seq<Sys>, steps: seq<Step>, e: EventId, k: nat, i: nat)
    requires |states| == |steps| + 1 && k < i <= |steps|
    requires Reopens(states, steps, k, e) && forall l | k < l < i :: !Settles(states, steps, l, e)
    ensures IsPending(states[i].db, e)
  {
    if k + 1 < i {
      StillPending(states, steps, e, k, i - 1);
      assert !Settles(states, steps, i - 1, e);
    }
  }

  /**
   * A message is acknowledged while its event is pending if and only if a replay, or the event's ingestion, has come
   * between the worker's decision on the message and the acknowledgement, and nothing has settled the event since.
   */
  lemma AcknowledgedWhilePending(cfg: Config, states: seq<Sys>, steps: seq<Step>, w: nat, i: nat)
    requires Steps(cfg, states, steps) && states[0].tasks == map[] && i < |steps| && steps[i] == Acknowledge(w)
    ensures Enabled(cfg, states[i], Acknowledge(w))
    ensures var msgs := states[i].tasks[w].msgs;
            var e := FiledUnder(msgs[0].payload);
            IsPending(states[i].db, e) <==> exists k: nat :: k < i && ReopenedBehind(states, steps, w, msgs, e, k, i)
  {
    StepAt(cfg, states, steps, i);
    var msgs := states[i].tasks[w].msgs;
    var e := FiledUnder(msgs[0].payload);
    hide Steps, IsPending;
    if IsPending(states[i].db, e) {
      var k := PendingMeansReopened(cfg, states, steps, w, i);
    }
    if k: nat :| k < i && ReopenedBehind(states, steps, w, msgs, e, k, i) {
      StillPending(states, steps, e, k, i);
    }
  }

  // ---------- Orphan dead letters ----------

  /** Dead letters of an id that no pending-to-failed step wrote, and that have not been replayed. */
  function Orphans(dlq: map<nat, DlqRow>, filed: set<nat>, e: EventId): set<nat> {
    set d | d in dlq && dlq[d].eventId == e && d !in filed && dlq[d].replayedAt.None?
  }

  /** A dead letter is written although the failing transaction's read has found no event. */
  predicate WritesOrphan(s: Sys, step: Step, e: EventId) {
    match step
    case DeadLetter(w) => Working(s, w) && FiledUnder(Head(s, w)) == e && e !in s.db.events
    case BlindDeadLetter(w) => Working(s, w) && FiledUnder(Head(s, w)) == e
    case _ => false
  }

  /** An orphan is the dead letter by which a replay requeues the event. */
  predicate TakesOrphan(s: Sys, step: Step, e: EventId) {
    step.Replayed? && step.d in Orphans(s.db.dlq, s.hist.filed, e) && ReplayOutcomeOf(s.db, step.d) == Requeued
  }

  /** How many of the first `i` steps write an orphan for the id, less how many take one. */
  ghost function OrphanSteps(states: seq<Sys>, steps: seq<Step>, i: nat, e: EventId): int
    requires i <= |steps| < |states|
  {
    if i == 0 then 0
    else
      OrphanSteps(states, steps, i - 1, e)
      + (if WritesOrphan(states[i - 1], steps[i - 1], e) then 1 else 0)
      - (if TakesOrphan(states[i - 1], steps[i - 1], e) then 1 else 0)
  }

  lemma RowJoins(dlq: map<nat, DlqRow>, filed: set<nat>, d: nat, row: DlqRow, e: EventId)
    requires d !in dlq && d !in filed && row.replayedAt.None?
    ensures |Orphans(dlq[d := row], filed, e)| == |Orphans(dlq, filed, e)| + (if row.eventId == e then 1 else 0)
    ensures Orphans(dlq[d := row], filed + {d}, e) == Orphans(dlq, filed, e)
  {
    if row.eventId == e {
      assert Orphans(dlq[d := row], filed, e) == Orphans(dlq, filed, e) + {d};
    } else {
      assert Orphans(dlq[d := row], filed, e) == Orphans(dlq, filed, e);
    }
  }

  lemma RowTaken(dlq: map<nat, DlqRow>, filed: set<nat>, d: nat, at: int, e: EventId)
    requires d in dlq
    ensures |Orphans(dlq[d := dlq[d].(replayedAt := Some(at))], filed, e)|
            == |Orphans(dlq, filed, e)| - (if d in Orphans(dlq, filed, e) then 1 else 0)
  {
    assert Orphans(dlq[d := dlq[d].(replayedAt := Some(at))], filed, e) == Orphans(dlq, filed, e) - {d};
  }

  lemma OrphanStep(cfg: Config, s: Sys, step: Step, e: EventId)
    requires Enabled(cfg, s, step) && WellFormed(s.db) && HistoryValid(s.db, s.hist.filed, s.hist.created)
    ensures |Orphans(NextDb(cfg, s, step).dlq, NextFiled(cfg, s, step), e)|
            == |Orphans(s.db.dlq, s.hist.filed, e)| + (if WritesOrphan(s, step, e) then 1 else 0)
               - (if TakesOrphan(s, step, e) then 1 else 0)
  {
    var dlq, filed := s.db.dlq, s.hist.filed;
    hide Orphans, Absorb, Touch;
    match step
    case DeadLetter(w) => RowJoins(dlq, filed, s.db.nextDlq, DlqRow(FiledUnder(Head(s, w)), cfg.maxRetries, None), e);
    case BlindDeadLetter(w) =>
      RowJoins(dlq, filed, s.db.nextDlq, DlqRow(FiledUnder(Head(s, w)), cfg.maxRetries, None), e);
    case Replayed(d) => {
      if d in dlq {
        RowTaken(dlq, filed, d, s.now, e);
      }
    }
    case _ => {}
  }

  /** Unreplayed orphans of an id: the failing transactions that found no event, less the replays that took one. */
  lemma {:induction false} OrphansCounted(cfg: Config, base: map<CustomerId, Customer>, states: seq<Sys>,
                                          steps: seq<Step>, i: nat, e: EventId)
    requires Steps(cfg, states, steps) && i <= |steps| && Inv(cfg, base, states[0]) && states[0].db.dlq == map[]
    ensures |Orphans(states[i].db.dlq, states[i].hist.filed, e)| == OrphanSteps(states, steps, i, e)
    ensures Inv(cfg, base, states[i])
  {
    if i == 0 {
      assert Orphans(states[0].db.dlq, states[0].hist.filed, e) == {};
    } else {
      StepAt(cfg, states, steps, i - 1);
      hide Inv, Orphans, WritesOrphan, TakesOrphan, Next, Enabled;
      OrphansCounted(cfg, base, states, steps, i - 1, e);
      hide Steps;
      OrphanNext(cfg, base, states[i - 1], steps[i - 1], e);
    }
  }

  lemma OrphanNext(cfg: Config, base: map<CustomerId, Customer>, s: Sys, step: Step, e: EventId)
    requires Enabled(cfg, s, step) && Inv(cfg, base, s) && Valid(s.stream)
    ensures var t := Next(cfg, s, step);
            && Inv(cfg, base, t)
            && |Orphans(t.db.dlq, t.hist.filed, e)|
               == |Orphans(s.db.dlq, s.hist.filed, e)| + (if WritesOrphan(s, step, e) then 1 else 0)
                  - (if TakesOrphan(s, step, e) then 1 else 0)
  {
    assert Balanced(s.db, s.hist) && WellFormed(s.db);
    hide Inv, Orphans, WritesOrphan, TakesOrphan, NextDb, NextStream, NextTasks, NextRecons, NextFiled, NextRolled,
         Enabled;
    InvStep(cfg, base, s, step);
    OrphanStep(cfg, s, step, e);
  }

  /**
   * At any point of a run some orphan can be the dead letter that requeues an event if and only if the event has
   * failed and more failing transactions have found no event under its id than replays have taken such a row.
   */
  lemma OrphanReplayable(cfg: Config, base: map<CustomerId, Customer>, states: seq<Sys>, steps: seq<Step>, i: nat,
                         e: EventId)
    requires Steps(cfg, states, steps) && i <= |steps| && Inv(cfg, base, states[0]) && states[0].db.dlq == map[]
    ensures var s := states[i];
            (exists d: nat :: TakesOrphan(s, Replayed(d), e))
            <==> e in s.db.events && s.db.events[e].status == Failed && 0 < OrphanSteps(states, steps, i, e)
  {
    var s := states[i];
    hide Steps, Inv, OrphanSteps, Orphans, TakesOrphan;
    OrphansCounted(cfg, base, states, steps, i, e);
    OpenOrphanTaken(s, e);
  }

  lemma OpenOrphanTaken(s: Sys, e: EventId)
    ensures (exists d: nat :: TakesOrphan(s, Replayed(d), e))
            <==> e in s.db.events && s.db.events[e].status == Failed && 0 < |Orphans(s.db.dlq, s.hist.filed, e)|
  {
    var orphans := Orphans(s.db.dlq, s.hist.filed, e);
    if d: nat :| d in orphans {
      assert e in s.db.events && s.db.events[e].status == Failed ==> TakesOrphan(s, Replayed(d), e);
    } else {
      assert orphans == {};
    }
  }

  /** A blind task goes back to a read that found no event under the id of its message. */
  lemma {:induction false} BlindHasLooked(cfg: Config, states: seq<Sys>, steps: seq<Step>, w: nat, i: nat)
    returns (j: nat)
    requires Steps(cfg, states, steps) && states[0].tasks == map[] && i < |states|
    requires w in states[i].tasks && states[i].tasks[w].blind && states[i].tasks[w].msgs != []
    ensures j < i && steps[j] == Look(w) && w in states[j].tasks && states[j].tasks[w].msgs == states[i].tasks[w].msgs
    ensures FiledUnder(states[i].tasks[w].msgs[0].payload) !in states[j].db.events
  {
    StepAt(cfg, states, steps, i - 1);
    hide Steps, NextDb, NextStream, NextTasks, NextRecons, NextHistory, Enabled;
    BlindBefore(cfg, states[i - 1], steps[i - 1], w);
    if steps[i - 1] == Look(w) && !states[i - 1].tasks[w].blind {
      j := i - 1;
    } else {
      j := BlindHasLooked(cfg, states, steps, w, i - 1);
    }
  }

  lemma BlindBefore(cfg: Config, s: Sys, step: Step, w: nat)
    requires Enabled(cfg, s, step) && Valid(s.stream)
    requires var tasks := NextTasks(cfg, s, step); w in tasks && tasks[w].blind && tasks[w].msgs != []
    ensures w in s.tasks && s.tasks[w].msgs == NextTasks(cfg, s, step)[w].msgs
    ensures s.tasks[w].blind || (step == Look(w) && FiledUnder(s.tasks[w].msgs[0].payload) !in s.db.events)
  {
    hide DecodeAll, Process;
  }

  /** A replay that takes an orphan leaves behind an unreplayed dead letter that a failure of the event wrote. */
  lemma OrphanTakenInstead(cfg: Config, base: map<CustomerId, Customer>, s: Sys, d: nat, e: EventId)
    returns (own: nat)
    requires Reachable(cfg, base, s) && TakesOrphan(s, Replayed(d), e)
    ensures own != d && own in FiledFor(s.db.dlq, s.hist.filed, e)
    ensures var next := Replay(s.db, d, s.now); next.dlq[own].replayedAt.None? && IsPending(next, e)
  {
    ReachableInv(cfg, base, s);
    var mine, replayed := FiledFor(s.db.dlq, s.hist.filed, e), ReplayedFor(s.db.dlq, e);
    assert EventBalanced(s.db, s.hist.filed, s.hist.created, e);
    hide Inv, Reachable;
    assert !(mine <= replayed) by {
      if mine <= replayed {
        SubsetSize(mine, replayed);
      }
    }
    own :| own in mine && own !in replayed;
  }
}
