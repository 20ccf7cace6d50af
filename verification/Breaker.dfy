/** The circuit breaker around the language model: concurrent analyze calls, each in separate locked steps. */
module Breaker {
  import opened Types

  /**
   * Where a call stands after it was let through to the provider; `probe` is its own flag. A finished call is
   * forgotten. Cancellation can strike while the provider runs or while the outcome waits for the lock.
   */
  datatype Call =
    | Running(probe: bool)
    | Failing(probe: bool)      // the provider raised or timed out; the failure is not recorded yet
    | Succeeding(probe: bool)   // the provider answered; the success is not recorded yet
    | Clearing                  // a probe on its way out

  datatype State = State(failures: nat, openedAt: Option<real>, probing: bool, now: real, calls: map<nat, Call>)

  datatype Config = Config(threshold: nat, cooldown: real)

  datatype Step =
    | Tick(now: real)
    | Enter(k: nat)
    | ProviderFails(k: nat)
    | ProviderAnswers(k: nat)
    | RecordFailure(k: nat)
    | RecordSuccess(k: nat)
    | Cancel(k: nat)
    | ClearProbe(k: nat)

  ghost predicate ValidConfig(cfg: Config) {
    1 <= cfg.threshold && 0.0 < cfg.cooldown
  }

  /** The gate: a closed circuit lets everybody in; an open one lets one probe in after the cooldown. */
  datatype Verdict = Refused | Admitted(probe: bool)

  function Gate(cfg: Config, s: State): Verdict {
    if s.openedAt.None? then Admitted(false)
    else if s.probing || s.now - s.openedAt.value < cfg.cooldown then Refused
    else Admitted(true)
  }

  predicate Cancellable(c: Call) {
    !c.Clearing?
  }

  predicate Enabled(s: State, step: Step) {
    match step
    case Tick(now) => s.now <= now
    case Enter(k) => k !in s.calls
    case ProviderFails(k) => k in s.calls && s.calls[k].Running?
    case ProviderAnswers(k) => k in s.calls && s.calls[k].Running?
    case RecordFailure(k) => k in s.calls && s.calls[k].Failing?
    case RecordSuccess(k) => k in s.calls && s.calls[k].Succeeding?
    case Cancel(k) => k in s.calls && Cancellable(s.calls[k])
    case ClearProbe(k) => k in s.calls && s.calls[k].Clearing?
  }

  /** The call leaves its try block: through the finally clause if it is the probe. */
  function Leave(calls: map<nat, Call>, k: nat, probe: bool): map<nat, Call> {
    if probe then calls[k := Clearing] else calls - {k}
  }

  function Next(cfg: Config, s: State, step: Step): State
    requires Enabled(s, step)
  {
    match step
    case Tick(now) => s.(now := now)
    case Enter(k) =>
      (match Gate(cfg, s)
       case Refused => s
       case Admitted(probe) => s.(probing := s.probing || probe, calls := s.calls[k := Running(probe)]))
    case ProviderFails(k) => s.(calls := s.calls[k := Failing(s.calls[k].probe)])
    case ProviderAnswers(k) => s.(calls := s.calls[k := Succeeding(s.calls[k].probe)])
    case RecordFailure(k) =>
      var probe, failures := s.calls[k].probe, s.failures + 1;
      s.(failures := failures,
         openedAt := if probe || cfg.threshold <= failures then Some(s.now) else s.openedAt,
         calls := Leave(s.calls, k, probe))
    case RecordSuccess(k) =>
      var probe := s.calls[k].probe;
      if probe || s.openedAt.None? then s.(failures := 0, openedAt := None, calls := Leave(s.calls, k, probe))
      else s.(calls := Leave(s.calls, k, probe))
    case Cancel(k) => s.(calls := Leave(s.calls, k, s.calls[k].probe))
    case ClearProbe(k) => s.(probing := false, calls := s.calls - {k})
  }

  const START := State(0, None, false, 0.0, map[])

  predicate IsProbe(c: Call) {
    c.Clearing? || c.probe
  }

  // ---------- The state invariant ----------

  /** Open exactly at the threshold; probing exactly while one unfinished probe exists; never two. */
  ghost predicate Valid(cfg: Config, s: State) {
    && (s.openedAt.Some? <==> cfg.threshold <= s.failures)
    && (s.openedAt.Some? ==> s.openedAt.value <= s.now)
    && (s.probing <==> exists k :: k in s.calls && IsProbe(s.calls[k]))
    && (forall j, k | j in s.calls && k in s.calls && IsProbe(s.calls[j]) && IsProbe(s.calls[k]) :: j == k)
    && (forall k | k in s.calls && IsProbe(s.calls[k]) && !s.calls[k].Clearing? :: s.openedAt.Some?)
  }

  /** An unfinished probe stays one until its own clearing step. */
  lemma ProbeStays(cfg: Config, s: State, step: Step, p: nat)
    requires Enabled(s, step) && p in s.calls && IsProbe(s.calls[p]) && step != ClearProbe(p)
    ensures var n := Next(cfg, s, step); p in n.calls && IsProbe(n.calls[p])
  {}

  lemma ValidStep(cfg: Config, s: State, step: Step)
    requires ValidConfig(cfg) && Valid(cfg, s) && Enabled(s, step)
    ensures Valid(cfg, Next(cfg, s, step))
  {
    var n := Next(cfg, s, step);
    if s.probing {
      var p :| p in s.calls && IsProbe(s.calls[p]);
      if step != ClearProbe(p) { ProbeStays(cfg, s, step, p); }
    }
    assert step.Enter? && Gate(cfg, s) == Admitted(true) ==> IsProbe(n.calls[step.k]);
  }

  // ---------- Runs ----------

  /** States and steps in turn: state i, step i, state i + 1. */
  datatype Trace = Trace(states: seq<State>, steps: seq<Step>)

  ghost predicate IsRun(cfg: Config, t: Trace) {
    && |t.states| == |t.steps| + 1 && t.states[0] == START
    && forall i | 0 <= i < |t.steps| ::
        Enabled(t.states[i], t.steps[i]) && t.states[i + 1] == Next(cfg, t.states[i], t.steps[i])
  }

  lemma {:induction false} RunValid(cfg: Config, t: Trace, i: nat)
    requires ValidConfig(cfg) && IsRun(cfg, t) && i < |t.states|
    ensures Valid(cfg, t.states[i])
  {
    if i != 0 {
      RunValid(cfg, t, i - 1);
      ValidStep(cfg, t.states[i - 1], t.steps[i - 1]);
      assert t.states[i - 1 + 1] == Next(cfg, t.states[i - 1], t.steps[i - 1]);
    }
  }

  /** In every reached state: open exactly at the threshold, and probing exactly when one probe is unfinished. */
  lemma BreakerState(cfg: Config, t: Trace, i: nat)
    requires ValidConfig(cfg) && IsRun(cfg, t) && i < |t.states|
    ensures var s := t.states[i];
            && (s.openedAt.Some? <==> cfg.threshold <= s.failures)
            && (s.probing <==> |set k | k in s.calls && IsProbe(s.calls[k])| == 1)
            && |set k | k in s.calls && IsProbe(s.calls[k])| <= 1
  {
    RunValid(cfg, t, i);
    var s := t.states[i];
    var probes := set k | k in s.calls && IsProbe(s.calls[k]);
    if s.probing {
      var p :| p in s.calls && IsProbe(s.calls[p]);
      assert probes == {p};
    } else {
      assert probes == {};
    }
  }

  /** The latest failure recorded before state `i`: the index of its step. */
  ghost predicate LatestFailure(t: Trace, i: nat, j: nat)
    requires |t.states| == |t.steps| + 1 && i < |t.states|
  {
    j < i && t.steps[j].RecordFailure? && forall m | j < m < i :: !t.steps[m].RecordFailure?
  }

  /** While the circuit is open, `opened_at` is the time of the latest recorded failure, late ones included. */
  lemma {:induction false} OpenedAtLatestFailure(cfg: Config, t: Trace, i: nat) returns (j: nat)
    requires ValidConfig(cfg) && IsRun(cfg, t) && i < |t.states| && t.states[i].openedAt.Some?
    ensures LatestFailure(t, i, j) && t.states[i].openedAt == Some(t.states[j].now)
  {
    var s, step := t.states[i - 1], t.steps[i - 1];
    assert t.states[i - 1 + 1] == Next(cfg, s, step);
    RunValid(cfg, t, i - 1);
    if step.RecordFailure? {
      j := i - 1;
    } else {
      j := OpenedAtLatestFailure(cfg, t, i - 1);
    }
  }

  /** Failures recorded in the first `i` steps since the latest recorded success, or since the start. */
  function FailuresSince(steps: seq<Step>, i: nat): nat
    requires i <= |steps|
  {
    if i == 0 then 0
    else if steps[i - 1].RecordSuccess? then 0
    else FailuresSince(steps, i - 1) + (if steps[i - 1].RecordFailure? then 1 else 0)
  }

  /** While the circuit is closed the counter is the number of failures recorded since the latest success. */
  lemma {:induction false} ClosedCounts(cfg: Config, t: Trace, i: nat)
    requires ValidConfig(cfg) && IsRun(cfg, t) && i < |t.states| && t.states[i].openedAt.None?
    ensures t.states[i].failures == FailuresSince(t.steps, i)
  {
    if i != 0 {
      var s, step := t.states[i - 1], t.steps[i - 1];
      assert t.states[i - 1 + 1] == Next(cfg, s, step);
      RunValid(cfg, t, i - 1);
      if s.openedAt.None? {
        ClosedCounts(cfg, t, i - 1);
      }
    }
  }

  /** A closed circuit opens at a recorded failure exactly if it is the threshold-th since the latest success. */
  lemma OpensAtThreshold(cfg: Config, t: Trace, i: nat)
    requires ValidConfig(cfg) && IsRun(cfg, t) && i < |t.steps| && t.states[i].openedAt.None?
    ensures t.states[i + 1].openedAt.Some?
            <==> t.steps[i].RecordFailure? && FailuresSince(t.steps, i + 1) == cfg.threshold
  {
    RunValid(cfg, t, i);
    ClosedCounts(cfg, t, i);
    assert t.states[i + 1] == Next(cfg, t.states[i], t.steps[i]);
  }

  predicate Starts(t: Trace, i: nat, k: nat)
    requires |t.states| == |t.steps| + 1 && i < |t.steps|
  {
    t.steps[i] == Enter(k) && k !in t.states[i].calls && k in t.states[i + 1].calls
  }

  /**
   * A provider call started while the circuit is open is the sole probe, and starts at least the cooldown after
   * the latest recorded failure.
   */
  lemma OpenCircuitAdmitsOneProbe(cfg: Config, t: Trace, i: nat, k: nat) returns (j: nat)
    requires ValidConfig(cfg) && IsRun(cfg, t) && i < |t.steps| && Starts(t, i, k) && t.states[i].openedAt.Some?
    ensures t.states[i + 1].calls[k] == Running(true)
    ensures forall m | m in t.states[i].calls :: !IsProbe(t.states[i].calls[m])
    ensures LatestFailure(t, i, j) && t.states[j].now + cfg.cooldown <= t.states[i].now
  {
    RunValid(cfg, t, i);
    j := OpenedAtLatestFailure(cfg, t, i);
  }

  /** Only the success of a probe closes an open circuit; a late success of an ordinary call does not. */
  lemma OnlyProbeCloses(cfg: Config, t: Trace, i: nat)
    requires ValidConfig(cfg) && IsRun(cfg, t) && i < |t.steps|
    requires t.states[i].openedAt.Some? && t.states[i + 1].openedAt.None?
    ensures t.steps[i].RecordSuccess? && t.states[i].calls[t.steps[i].k] == Succeeding(true)
    ensures t.states[i + 1].failures == 0
  {}

  /** A closed circuit refuses nobody, and an open one past its cooldown, with no probe out, lets the next caller in. */
  lemma NobodyLockedOut(cfg: Config, t: Trace, i: nat)
    requires ValidConfig(cfg) && IsRun(cfg, t) && i < |t.states|
    requires forall m | m in t.states[i].calls :: !IsProbe(t.states[i].calls[m])
    requires t.states[i].openedAt.Some? ==> t.states[i].openedAt.value + cfg.cooldown <= t.states[i].now
    ensures Gate(cfg, t.states[i]) != Refused
  {
    RunValid(cfg, t, i);
  }

  // ---------- The service object ----------

  class AnalysisService {
    var failures: nat
    var openedAt: Option<real>
    var probing: bool

    constructor ()
      ensures failures == 0 && openedAt == None && !probing
    {
      failures, openedAt, probing := 0, None, false;
    }

    /** The object's fields as they stand in a state of the machine. */
    ghost predicate Shows(s: State)
      reads this
    {
      failures == s.failures && openedAt == s.openedAt && probing == s.probing
    }

    /** The locked section at the start of analyze. */
    method PassGate(cfg: Config, now: real, k: nat, ghost s: State) returns (v: Verdict)
      requires Shows(s) && s.now == now && Enabled(s, Enter(k))
      modifies this
      ensures v == Gate(cfg, s) && Shows(Next(cfg, s, Enter(k)))
      ensures v == Refused <==> openedAt.Some? && (old(probing) || now - openedAt.value < cfg.cooldown)
      ensures v == Admitted(true) ==> openedAt.Some? && !old(probing) && probing
      ensures v == Admitted(false) ==> openedAt.None?
      ensures failures == old(failures) && openedAt == old(openedAt)
      ensures v != Admitted(true) ==> probing == old(probing)
    {
      if openedAt.Some? {
        if probing || now - openedAt.value < cfg.cooldown {
          return Refused;
        }
        probing := true;
        return Admitted(true);
      }
      return Admitted(false);
    }

    /** The locked section of the exception handler. */
    method NoteFailure(cfg: Config, now: real, probe: bool, k: nat, ghost s: State)
      requires Shows(s) && s.now == now && Enabled(s, RecordFailure(k)) && s.calls[k].probe == probe
      modifies this
      ensures Shows(Next(cfg, s, RecordFailure(k)))
      ensures failures == old(failures) + 1 && probing == old(probing)
      ensures openedAt == if probe || failures >= cfg.threshold then Some(now) else old(openedAt)
    {
      failures := failures + 1;
      if probe || cfg.threshold <= failures {
        openedAt := Some(now);
      }
    }

    /** The locked section after an answer. */
    method NoteSuccess(cfg: Config, probe: bool, k: nat, ghost s: State)
      requires Shows(s) && Enabled(s, RecordSuccess(k)) && s.calls[k].probe == probe
      modifies this
      ensures Shows(Next(cfg, s, RecordSuccess(k)))
      ensures probe || old(openedAt) == None ==> failures == 0 && openedAt == None
      ensures !probe && old(openedAt).Some? ==> failures == old(failures) && openedAt == old(openedAt)
      ensures probing == old(probing)
    {
      if probe || openedAt.None? {
        failures := 0;
        openedAt := None;
      }
    }

    /** The locked section of the finally clause. */
    method EndProbe(cfg: Config, k: nat, ghost s: State)
      requires Shows(s) && Enabled(s, ClearProbe(k))
      modifies this
      ensures Shows(Next(cfg, s, ClearProbe(k)))
      ensures !probing && failures == old(failures) && openedAt == old(openedAt)
    {
      probing := false;
    }
  }
}
