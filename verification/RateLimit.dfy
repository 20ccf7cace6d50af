/** The sliding-window limiter: the pruned sorted set against the full history of admissions. */
module RateLimit {
  import opened Types

  const WINDOW: real := 60.0

  /** One admitted call. */
  datatype Admission = Admission(at: real, cost: nat)

  /** Units admitted in the window (t - 60, t]. */
  function Units(history: seq<Admission>, t: real): nat {
    if history == [] then 0
    else
      var a := history[|history| - 1];
      Units(history[..|history| - 1], t) + (if t - WINDOW < a.at <= t then a.cost else 0)
  }

  /** Units admitted after `from`, up to and at `until`. */
  function UnitsBetween(history: seq<Admission>, from: real, until: real): nat {
    if history == [] then 0
    else
      (if from < history[0].at && history[0].at <= until then history[0].cost else 0)
      + UnitsBetween(history[1..], from, until)
  }

  lemma {:induction false} UnitsBetweenSnoc(history: seq<Admission>, from: real, until: real)
    requires history != []
    ensures var n := |history| - 1;
            UnitsBetween(history, from, until)
            == UnitsBetween(history[..n], from, until)
               + (if from < history[n].at <= until then history[n].cost else 0)
  {
    var n := |history| - 1;
    if n > 0 {
      UnitsBetweenSnoc(history[1..], from, until);
      assert history[1..][..n - 1] == history[..n][1..];
    }
  }

  predicate MinuteBounded(history: seq<Admission>, t: real, limit: nat) {
    UnitsBetween(history, t - 60.0, t) <= limit
  }

  /** The window is a minute long, open at its start and closed at its end. */
  lemma {:induction false} UnitsAreAMinute(history: seq<Admission>, t: real)
    ensures Units(history, t) == UnitsBetween(history, t - 60.0, t)
  {
    if history != [] {
      UnitsBetweenSnoc(history, t - 60.0, t);
      UnitsAreAMinute(history[..|history| - 1], t);
    }
  }

  /** Units admitted after time `t`. */
  function UnitsAfter(history: seq<Admission>, t: real): nat {
    if history == [] then 0
    else
      var a := history[|history| - 1];
      UnitsAfter(history[..|history| - 1], t) + (if t < a.at then a.cost else 0)
  }

  predicate InOrder(history: seq<Admission>) {
    forall i, j | 0 <= i < j < |history| :: history[i].at <= history[j].at
  }

  predicate UpTo(history: seq<Admission>, now: real) {
    forall a | a in history :: a.at <= now
  }

  /** Every call that was admitted was admitted within the limit, at its own time. */
  predicate EachWithin(history: seq<Admission>, limit: nat) {
    forall i | 0 <= i < |history| :: Units(history[..i + 1], history[i].at) <= limit
  }

  // ---------- The sorted set ----------

  /** Scores of the members; members are unique, so only the scores matter. */
  function Copies(x: real, n: nat): seq<real> {
    if n == 0 then [] else Copies(x, n - 1) + [x]
  }

  /** The members an admission history leaves after pruning at `cutoff`. */
  function Members(history: seq<Admission>, cutoff: real): seq<real> {
    if history == [] then []
    else
      var a := history[|history| - 1];
      Members(history[..|history| - 1], cutoff) + (if cutoff < a.at then Copies(a.at, a.cost) else [])
  }

  /** ZREMRANGEBYSCORE -inf .. cutoff. */
  function Prune(scores: seq<real>, cutoff: real): seq<real> {
    if scores == [] then []
    else Prune(scores[..|scores| - 1], cutoff) + (if cutoff < scores[|scores| - 1] then [scores[|scores| - 1]] else [])
  }

  lemma {:induction false} PruneConcat(a: seq<real>, b: seq<real>, cutoff: real)
    ensures Prune(a + b, cutoff) == Prune(a, cutoff) + Prune(b, cutoff)
  {
    if b == [] {
      assert a + b == a;
    } else {
      PruneConcat(a, b[..|b| - 1], cutoff);
      assert (a + b)[..|a + b| - 1] == a + b[..|b| - 1];
    }
  }

  lemma {:induction false} PruneCopies(x: real, n: nat, cutoff: real)
    ensures Prune(Copies(x, n), cutoff) == if cutoff < x then Copies(x, n) else []
    ensures |Copies(x, n)| == n
  {
    if n != 0 {
      PruneCopies(x, n - 1, cutoff);
      assert Copies(x, n)[..|Copies(x, n)| - 1] == Copies(x, n - 1);
    }
  }

  /** Pruning again at a later cutoff is pruning the full history at that cutoff. */
  lemma {:induction false} PruneMembers(history: seq<Admission>, earlier: real, cutoff: real)
    requires earlier <= cutoff
    ensures Prune(Members(history, earlier), cutoff) == Members(history, cutoff)
  {
    if history != [] {
      var n := |history| - 1;
      PruneMembers(history[..n], earlier, cutoff);
      PruneCopies(history[n].at, history[n].cost, cutoff);
      var last := if earlier < history[n].at then Copies(history[n].at, history[n].cost) else [];
      PruneConcat(Members(history[..n], earlier), last, cutoff);
    }
  }

  lemma {:induction false} MembersCount(history: seq<Admission>, cutoff: real)
    ensures |Members(history, cutoff)| == UnitsAfter(history, cutoff)
  {
    if history != [] {
      var n := |history| - 1;
      MembersCount(history[..n], cutoff);
      PruneCopies(history[n].at, history[n].cost, cutoff);
    }
  }

  lemma {:induction false} UnitsUpTo(history: seq<Admission>, now: real)
    requires UpTo(history, now)
    ensures UnitsAfter(history, now - WINDOW) == Units(history, now)
  {
    if history != [] {
      var n := |history| - 1;
      assert forall a | a in history[..n] :: a in history;
      assert history[n] in history;
      UnitsUpTo(history[..n], now);
    }
  }

  // ---------- The bound ----------

  /** Units in a window only grow with the history. */
  lemma {:induction false} UnitsPrefix(history: seq<Admission>, i: nat, t: real)
    requires i <= |history|
    ensures Units(history[..i], t) <= Units(history, t)
  {
    if i < |history| {
      var n := |history| - 1;
      UnitsPrefix(history[..n], i, t);
      assert history[..n][..i] == history[..i];
    } else {
      assert history[..i] == history;
    }
  }

  /** A window holds no more than the window that ends at the latest admission inside it. */
  lemma {:induction false} WindowShrinks(history: seq<Admission>, t: real, u: real)
    requires u <= t && forall a | a in history && t - WINDOW < a.at <= t :: a.at <= u
    ensures Units(history, t) <= Units(history, u)
  {
    if history != [] {
      var n := |history| - 1;
      assert forall a | a in history[..n] :: a in history;
      assert history[n] in history;
      WindowShrinks(history[..n], t, u);
    }
  }

  lemma WithinPrefix(history: seq<Admission>, n: nat, limit: nat)
    requires n <= |history| && InOrder(history) && EachWithin(history, limit)
    ensures InOrder(history[..n]) && EachWithin(history[..n], limit)
  {
    hide Units;
    forall i | 0 <= i < n
      ensures Units(history[..n][..i + 1], history[..n][i].at) <= limit
    {
      assert history[..n][..i + 1] == history[..i + 1];
      assert Units(history[..i + 1], history[i].at) <= limit;
    }
  }

  /** No window (t - 60, t], for any real t, ever holds more than the limit. */
  lemma {:induction false} EveryWindowBounded(history: seq<Admission>, limit: nat, t: real)
    requires InOrder(history) && EachWithin(history, limit)
    ensures Units(history, t) <= limit
  {
    if history != [] {
      var n := |history| - 1;
      var last := history[n];
      WithinPrefix(history, n, limit);
      EveryWindowBounded(history[..n], limit, t);
      if t - WINDOW < last.at <= t {
        assert history[..n + 1] == history;
        WindowShrinks(history, t, last.at);
      }
    }
  }

  lemma {:induction false} NothingRecent(history: seq<Admission>, cutoff: real)
    requires UpTo(history, cutoff)
    ensures Members(history, cutoff) == []
  {
    if history != [] {
      var n := |history| - 1;
      assert forall a | a in history[..n] :: a in history;
      assert history[n] in history;
      NothingRecent(history[..n], cutoff);
    }
  }

  lemma LaterStill(history: seq<Admission>, earlier: real, later: real)
    requires UpTo(history, earlier) && earlier <= later
    ensures UpTo(history, later)
  {
  }

  lemma AdmissionKeepsOrder(history: seq<Admission>, now: real, cost: nat)
    requires InOrder(history) && UpTo(history, now)
    ensures InOrder(history + [Admission(now, cost)]) && UpTo(history + [Admission(now, cost)], now)
  {
    assert forall i | 0 <= i < |history| :: history[i] in history;
  }

  /** Admitting within the limit keeps every admission within the limit. */
  lemma AdmissionKeepsBound(history: seq<Admission>, limit: nat, now: real, cost: nat)
    requires EachWithin(history, limit) && Units(history, now) + cost <= limit
    ensures EachWithin(history + [Admission(now, cost)], limit)
  {
    var next := history + [Admission(now, cost)];
    assert next[..|next| - 1] == history;
    assert Units(next, now) == Units(history, now) + cost;
    hide Units;
    forall i | 0 <= i < |next|
      ensures Units(next[..i + 1], next[i].at) <= limit
    {
      if i < |history| {
        assert next[..i + 1] == history[..i + 1];
        assert Units(history[..i + 1], history[i].at) <= limit;
      } else {
        assert next[..i + 1] == next;
      }
    }
  }

  lemma AdmissionJoins(history: seq<Admission>, now: real, cost: nat, cutoff: real)
    requires cutoff < now
    ensures Members(history + [Admission(now, cost)], cutoff) == Members(history, cutoff) + Copies(now, cost)
  {
    var next := history + [Admission(now, cost)];
    assert next[..|next| - 1] == history;
  }

  // ---------- The limiter ----------

  class Limiter {
    const limit: nat
    var scores: seq<real>          // the sorted set under one client's key
    var expiresAt: Option<real>    // what EXPIRE set
    ghost var history: seq<Admission>
    ghost var clock: real          // the time of the latest call
    ghost var pruned: real         // the latest cutoff

    ghost predicate Valid()
      reads this
    {
      && InOrder(history) && UpTo(history, clock) && EachWithin(history, limit)
      && pruned <= clock - WINDOW && scores == Members(history, pruned)
      && (expiresAt.Some? ==> UpTo(history, expiresAt.value - WINDOW))
    }

    constructor (limit: nat)
      ensures Valid() && history == [] && this.limit == limit
    {
      this.limit := limit;
      scores, expiresAt, history, clock, pruned := [], None, [], 0.0, -WINDOW;
    }

    /** A key past its expiry is gone; pruning would have removed all its members anyway. */
    method ExpireKey(now: real)
      requires Valid() && clock <= now
      modifies this
      ensures Valid() && clock == now && history == old(history)
      ensures Prune(scores, now - WINDOW) == Prune(old(scores), now - WINDOW)
    {
      hide Units, UnitsAfter, Members, Prune, EachWithin, InOrder, UpTo, Copies;
      PruneMembers(history, pruned, now - WINDOW);
      LaterStill(history, clock, now);
      clock := now;
      if expiresAt.Some? && expiresAt.value <= now {
        LaterStill(history, expiresAt.value - WINDOW, now - WINDOW);
        NothingRecent(history, now - WINDOW);
        PruneMembers(history, now - WINDOW, now - WINDOW);
        scores, expiresAt, pruned := [], None, now - WINDOW;
      }
    }

    /** The Lua script, atomic. */
    method RunScript(now: real, cost: nat) returns (allowed: bool)
      requires Valid() && clock == now
      modifies this
      ensures Valid() && clock == now
      ensures allowed <==> Units(old(history), now) + cost <= limit
      ensures history == if allowed then old(history) + [Admission(now, cost)] else old(history)
      ensures scores == Members(history, now - WINDOW) && |scores| == Units(history, now)
    {
      hide Units, UnitsAfter, Members, Prune, EachWithin, InOrder, UpTo, Copies;
      PruneMembers(history, pruned, now - WINDOW);
      scores, pruned := Prune(scores, now - WINDOW), now - WINDOW;
      MembersCount(history, now - WINDOW);
      UnitsUpTo(history, now);
      if |scores| + cost > limit {
        return false;
      }
      scores := AddMembers(scores, now, cost);
      AdmissionKeepsOrder(history, now, cost);
      AdmissionKeepsBound(history, limit, now, cost);
      AdmissionJoins(history, now, cost, now - WINDOW);
      history := history + [Admission(now, cost)];
      LaterStill(history, now, now + 61.0 - WINDOW);
      expiresAt := Some(now + 61.0);
      MembersCount(history, now - WINDOW);
      UnitsUpTo(history, now);
      return true;
    }

    /** The script's loop: one fresh member for each unit of the cost. */
    static method AddMembers(kept: seq<real>, now: real, cost: nat) returns (scores: seq<real>)
      ensures scores == kept + Copies(now, cost)
    {
      scores := kept;
      for i := 0 to cost
        invariant scores == kept + Copies(now, i)
      {
        scores := scores + [now];
      }
    }

    /**
     * rate_limit_events, with Redis up and the clock not going back. The call is rejected exactly when admitting
     * it would put more than the limit into the window that ends now.
     */
    method Admit(now: real, cost: nat) returns (allowed: bool)
      requires Valid() && clock <= now
      modifies this
      ensures Valid() && clock == now
      ensures allowed <==> Units(old(history), now) + cost <= limit
      ensures history == if allowed then old(history) + [Admission(now, cost)] else old(history)
      ensures forall t: real :: Units(history, t) <= limit
      ensures allowed <==> UnitsBetween(old(history), now - 60.0, now) + cost <= limit
      ensures forall t: real :: MinuteBounded(history, t, limit)
    {
      UnitsAreAMinute(history, now);
      hide Units, UnitsAfter, Members, Prune, EachWithin, InOrder, UpTo, Copies;
      if cost > limit {
        LaterStill(history, clock, now);
        clock := now;
        allowed := false;
      } else {
        ExpireKey(now);
        allowed := RunScript(now, cost);
      }
      hide UnitsBetween;
      forall t: real ensures Units(history, t) <= limit && MinuteBounded(history, t, limit) {
        EveryWindowBounded(history, limit, t);
        UnitsAreAMinute(history, t);
      }
    }
  }
}
