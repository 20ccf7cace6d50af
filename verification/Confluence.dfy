/** Order independence of scoring, and what the displayed score says about the future. */
module Confluence {
  import opened Types
  import opened Decay
  import opened Scoring

  /** The accumulator read at a time no earlier than its clock; no row reads as zero. */
  ghost function ValueAt(q: Factor, eng: Option<Engagement>, u: int): real
    requires eng.Some? ==> eng.value.lastUpdated <= u
  {
    match eng
    case None => 0.0
    case Some(e) => Times(e.score, Pow(q, u - e.lastUpdated))
  }

  /** Late or early, an event adds its own contribution to the accumulator's later value. */
  lemma AbsorbAddsContribution(q: Factor, eng: Option<Engagement>, f: Fact, u: int)
    requires f.ts <= u && (eng.Some? ==> eng.value.lastUpdated <= u)
    ensures ValueAt(q, Some(Absorb(q, eng, f)), u) == ValueAt(q, eng, u) + Contribution(q, f, u)
  {
    hide Times;
    hide Weight;
    var next := Absorb(q, eng, f);
    var t := next.lastUpdated;
    ContributionShift(q, f, t, u);
    ContributionNow(q, f);
    match eng {
      case None =>
      case Some(e) =>
        TimesUnits(e.score);
        var before := Times(e.score, Pow(q, t - e.lastUpdated));
        assert next.score == before + Contribution(q, f, t);
        TimesDistributes(before, Contribution(q, f, t), Pow(q, u - t));
        PowAdd(q, t - e.lastUpdated, u - t);
        TimesAssociates(e.score, Pow(q, t - e.lastUpdated), Pow(q, u - t));
        assert t - e.lastUpdated + (u - t) == u - e.lastUpdated;
    }
  }

  /** What an event adds to the accumulator as it is read at a time no earlier than the event and the clock. */
  ghost function Added(q: Factor, eng: Option<Engagement>, f: Fact, u: int): real
    requires f.ts <= u && (eng.Some? ==> eng.value.lastUpdated <= u)
  {
    ValueAt(q, Some(Absorb(q, eng, f)), u) - ValueAt(q, eng, u)
  }

  /** On one channel and at one time each kind of event adds less than the one before, from purchase to complaint. */
  lemma AddsInOrder(q: Factor, eng: Option<Engagement>, c: Channel, ts: int, u: int, i: nat, j: nat)
    requires ts <= u && (eng.Some? ==> eng.value.lastUpdated <= u) && i < j < 9
    ensures Added(q, eng, Fact(c, BY_VALUE[i], ts), u) > Added(q, eng, Fact(c, BY_VALUE[j], ts), u)
    ensures i <= 5 ==> Added(q, eng, Fact(c, BY_VALUE[i], ts), u) > 0.0
    ensures j >= 6 ==> Added(q, eng, Fact(c, BY_VALUE[j], ts), u) < 0.0
  {
    var f, g, r := Fact(c, BY_VALUE[i], ts), Fact(c, BY_VALUE[j], ts), Pow(q, Gap(ts, u));
    AbsorbAddsContribution(q, eng, f, u);
    AbsorbAddsContribution(q, eng, g, u);
    WeightsInOrder(c, ts, i, j);
    TimesStrict(Weight(g), Weight(f), r);
    TimesStrict(0.0, Weight(f), r);
    TimesStrict(Weight(g), 0.0, r);
    assert Contribution(q, f, u) == Times(r, Weight(f)) && Contribution(q, g, u) == Times(r, Weight(g)) by {
      TimesCommutes(Weight(f), r);
      TimesCommutes(Weight(g), r);
    }
    TimesUnits(r);
    TimesCommutes(0.0, r);
    hide Times, Weight, Absorb, ValueAt;
  }

  lemma WeightsInOrder(c: Channel, ts: int, i: nat, j: nat)
    requires i < j < 9
    ensures Weight(Fact(c, BY_VALUE[i], ts)) > Weight(Fact(c, BY_VALUE[j], ts))
    ensures i <= 5 ==> Weight(Fact(c, BY_VALUE[i], ts)) > 0.0
    ensures j >= 6 ==> Weight(Fact(c, BY_VALUE[j], ts)) < 0.0
  {
    TimesStrict(BaseWeight(BY_VALUE[j]), BaseWeight(BY_VALUE[i]), ChannelWeight(c));
    TimesStrict(0.0, BaseWeight(BY_VALUE[i]), ChannelWeight(c));
    TimesStrict(BaseWeight(BY_VALUE[j]), 0.0, ChannelWeight(c));
    TimesCommutes(BaseWeight(BY_VALUE[i]), ChannelWeight(c));
    TimesCommutes(BaseWeight(BY_VALUE[j]), ChannelWeight(c));
    TimesCommutes(0.0, ChannelWeight(c));
    TimesUnits(ChannelWeight(c));
    hide Times;
  }

  /** The channel scales what an event adds, by its factor: an email adds what it is worth, the others in proportion. */
  lemma ChannelScales(q: Factor, eng: Option<Engagement>, k: Kind, c: Channel, ts: int, u: int)
    requires ts <= u && (eng.Some? ==> eng.value.lastUpdated <= u)
    ensures var factor := map[Email := 1.0, Sms := 1.2, Whatsapp := 1.3, Push := 0.9, Web := 1.1];
            c in factor && Added(q, eng, Fact(c, k, ts), u) == Times(Added(q, eng, Fact(Email, k, ts), u), factor[c])
  {
    var f, g, r := Fact(c, k, ts), Fact(Email, k, ts), Pow(q, Gap(ts, u));
    AbsorbAddsContribution(q, eng, f, u);
    AbsorbAddsContribution(q, eng, g, u);
    WeightTable(f);
    WeightTable(g);
    hide Times, Absorb, ValueAt;
    TimesUnits(BaseWeight(k));
    TimesAssociates(BaseWeight(k), ChannelWeight(c), r);
    TimesCommutes(ChannelWeight(c), r);
    TimesAssociates(BaseWeight(k), r, ChannelWeight(c));
  }

  lemma BreakdownCommutes(bd: map<Channel, Tally>, c: Channel, v: real, d: Channel, w: real)
    ensures UpdateBreakdown(UpdateBreakdown(bd, c, v), d, w) == UpdateBreakdown(UpdateBreakdown(bd, d, w), c, v)
  {}

  /** Two events commute from any accumulator whatsoever, including one far outside the display clamp. */
  lemma AbsorbCommutes(q: Factor, eng: Option<Engagement>, f: Fact, g: Fact)
    ensures Absorb(q, Some(Absorb(q, eng, f)), g) == Absorb(q, Some(Absorb(q, eng, g)), f)
  {
    hide Times;
    hide Weight;
    var fg := Absorb(q, Some(Absorb(q, eng, f)), g);
    var gf := Absorb(q, Some(Absorb(q, eng, g)), f);
    var u := fg.lastUpdated;
    assert gf.lastUpdated == u;
    AbsorbAddsContribution(q, eng, f, u);
    AbsorbAddsContribution(q, Some(Absorb(q, eng, f)), g, u);
    AbsorbAddsContribution(q, eng, g, u);
    AbsorbAddsContribution(q, Some(Absorb(q, eng, g)), f, u);
    TimesUnits(fg.score);
    TimesUnits(gf.score);
    assert fg.score == ValueAt(q, Some(fg), u) && gf.score == ValueAt(q, Some(gf), u);
    BreakdownCommutes(if eng.Some? then eng.value.breakdown else map[], f.channel, Weight(f), g.channel, Weight(g));
  }

  /** A delivery order, folded from any starting row. */
  ghost function Deliver(q: Factor, eng: Option<Engagement>, fs: seq<Fact>): Option<Engagement>
    decreases |fs|
  {
    if fs == [] then eng else Deliver(q, Some(Absorb(q, eng, fs[0])), fs[1..])
  }

  lemma {:induction false} DeliverFirst(q: Factor, eng: Option<Engagement>, fs: seq<Fact>, i: nat)
    requires i < |fs|
    ensures Deliver(q, eng, fs) == Deliver(q, Some(Absorb(q, eng, fs[i])), fs[..i] + fs[i + 1..])
    decreases |fs|
  {
    hide Absorb;
    if i == 0 {
      assert fs[..0] + fs[1..] == fs[1..];
    } else {
      var first := Some(Absorb(q, eng, fs[0]));
      var rest := fs[1..];
      DeliverFirst(q, first, rest, i - 1);
      assert fs[..i] + fs[i + 1..] == [fs[0]] + (rest[..i - 1] + rest[i..]);
      AbsorbCommutes(q, eng, fs[0], fs[i]);
    }
  }

  /** Any two arrival orders of the same events end in the same score, clock and channel breakdown. */
  lemma {:induction false} DeliveryOrderIrrelevant(q: Factor, eng: Option<Engagement>, a: seq<Fact>, b: seq<Fact>)
    requires multiset(a) == multiset(b)
    ensures Deliver(q, eng, a) == Deliver(q, eng, b)
    decreases |a|
  {
    hide Absorb;
    if a == [] {
      assert |multiset(b)| == 0;
    } else {
      assert a[0] in multiset(b);
      var i :| 0 <= i < |b| && b[i] == a[0];
      DeliverFirst(q, eng, b, i);
      var rest := b[..i] + b[i + 1..];
      assert b == b[..i] + [b[i]] + b[i + 1..];
      assert a == [a[0]] + a[1..];
      assert multiset(a[1..]) == multiset(a) - multiset{a[0]};
      assert multiset(rest) == multiset(b) - multiset{b[i]};
      DeliveryOrderIrrelevant(q, Some(Absorb(q, eng, a[0])), a[1..], rest);
    }
  }

  // ---------- The displayed score ----------

  /** At or after the clock, what is displayed is the clamped sum over exactly the processed events. */
  lemma DisplayedScore(q: Factor, done: map<EventId, Fact>, e: Engagement, now: int)
    requires Summarizes(q, done, e)
    ensures ScoreAt(q, e.score, Some(e.lastUpdated), now)
         == Clamp(Total(Contributions(q, done, Max(now, e.lastUpdated))))
  {
    hide Times;
    TotalShift(q, done, e.lastUpdated, Max(now, e.lastUpdated));
    TimesUnits(e.score);
  }

  /** A candidate row as the preview query returns it: no engagement row reads as score zero without a clock. */
  predicate CandidateScore(score: real, last: Option<int>) {
    last.None? ==> score == 0.0
  }

  /** How long a row has decayed by `t`; a row dated in the future has not begun to. */
  function Elapsed(last: Option<int>, t: int): nat {
    if last.Some? && last.value < t then t - last.value else 0
  }

  /** Waiting from `now` to `later` never strictly inverts the displayed scores of rows with these two clocks. */
  ghost predicate OrderKept(q: Factor, l1: Option<int>, l2: Option<int>, now: int, later: int) {
    forall s1: real, s2: real | CandidateScore(s1, l1) && CandidateScore(s2, l2)
                                && ScoreAt(q, s1, l1, now) < ScoreAt(q, s2, l2, now) ::
      ScoreAt(q, s1, l1, later) <= ScoreAt(q, s2, l2, later)
  }

  /** What a row shows later is what it showed before the clamp, decayed by what elapses for it in between. */
  lemma DisplayLater(q: Factor, score: real, last: Option<int>, now: int, later: int)
    requires now <= later
    ensures Elapsed(last, now) <= Elapsed(last, later)
    ensures var raw := Times(score, Pow(q, Elapsed(last, now)));
            && ScoreAt(q, score, last, now) == Clamp(raw)
            && ScoreAt(q, score, last, later) == Clamp(Times(raw, Pow(q, Elapsed(last, later) - Elapsed(last, now))))
  {
    hide Times;
    PowAdd(q, Elapsed(last, now), Elapsed(last, later) - Elapsed(last, now));
    TimesAssociates(score, Pow(q, Elapsed(last, now)), Pow(q, Elapsed(last, later) - Elapsed(last, now)));
  }

  /** What is shown lies between -50 and 200, and is the decayed score itself where that does. */
  lemma DisplayedWithin(q: Factor, score: real, last: Option<int>, now: int)
    ensures var shown, raw := ScoreAt(q, score, last, now), Times(score, Pow(q, Elapsed(last, now)));
            && (-50.0 <= raw <= 200.0 ==> shown == raw)
            && (raw < -50.0 ==> shown == -50.0) && (200.0 < raw ==> shown == 200.0)
  {
    hide Times, Pow;
  }

  /** The decay that waiting brings a row. */
  function Fade(q: Factor, last: Option<int>, now: int, later: int): (r: real)
    requires now <= later
    ensures r > 0.0
  {
    Pow(q, Elapsed(last, later) - Elapsed(last, now))
  }

  /** Rows that fade alike keep their order. */
  lemma EqualFadeKeeps(q: Factor, l1: Option<int>, l2: Option<int>, now: int, later: int)
    requires now <= later && Fade(q, l1, now, later) == Fade(q, l2, now, later)
    ensures OrderKept(q, l1, l2, now, later)
  {
    hide Times, ScoreAt, Elapsed;
    forall s1: real, s2: real | CandidateScore(s1, l1) && CandidateScore(s2, l2)
                                && ScoreAt(q, s1, l1, now) < ScoreAt(q, s2, l2, now)
      ensures ScoreAt(q, s1, l1, later) <= ScoreAt(q, s2, l2, later)
    {
      DisplayLater(q, s1, l1, now, later);
      DisplayLater(q, s2, l2, now, later);
      TimesMonotone(Times(s1, Pow(q, Elapsed(l1, now))), Times(s2, Pow(q, Elapsed(l2, now))), Fade(q, l1, now, later));
    }
  }

  /** A row without a clock shows zero for ever, and a score keeps its sign. */
  lemma ClocklessKeeps(q: Factor, l1: Option<int>, l2: Option<int>, now: int, later: int)
    requires now <= later && (l1.None? || l2.None?)
    ensures OrderKept(q, l1, l2, now, later)
  {
    hide Times, ScoreAt, Elapsed;
    forall s1: real, s2: real | CandidateScore(s1, l1) && CandidateScore(s2, l2)
                                && ScoreAt(q, s1, l1, now) < ScoreAt(q, s2, l2, now)
      ensures ScoreAt(q, s1, l1, later) <= ScoreAt(q, s2, l2, later)
    {
      DisplayLater(q, s1, l1, now, later);
      DisplayLater(q, s2, l2, now, later);
      var raw1, raw2 := Times(s1, Pow(q, Elapsed(l1, now))), Times(s2, Pow(q, Elapsed(l2, now)));
      TimesUnits(Pow(q, Elapsed(l1, now)));
      TimesUnits(Pow(q, Elapsed(l2, now)));
      TimesUnits(Fade(q, l1, now, later));
      TimesUnits(Fade(q, l2, now, later));
      if l1.None? {
        TimesMonotone(0.0, raw2, Fade(q, l2, now, later));
      } else {
        TimesMonotone(raw1, 0.0, Fade(q, l1, now, later));
      }
    }
  }

  /** Two close scores a little above zero, or a little below, that unequal fading turns round. */
  lemma Crossing(a: real, b: real) returns (x1: real, x2: real)
    requires a > 0.0 && b > 0.0 && a != b
    ensures -1.0 <= x1 < x2 <= 1.0
    ensures -1.0 <= Times(x2, b) < Times(x1, a) <= 1.0
  {
    if a > b {
      var c, y := Between(a, b);
      x1, x2 := y, c;
    } else {
      var c, y := Between(b, a);
      x1, x2 := -c, -y;
    }
  }

  /** A number just below `c` that fading by `hi` brings above what fading by `lo` makes of `c`. */
  lemma Between(hi: real, lo: real) returns (c: real, y: real)
    requires 0.0 < lo < hi
    ensures 0.0 < y < c <= 1.0
    ensures Times(c, lo) < Times(y, hi) <= 1.0 && 0.0 < Times(c, lo)
    ensures Times(-c, lo) == -Times(c, lo) && Times(-y, hi) == -Times(y, hi)
  {
    c := if hi <= 1.0 then 1.0 else 1.0 / hi;
    assert 0.0 < c <= 1.0 && c * hi <= 1.0;
    var ratio := ((hi + lo) / 2.0) / hi;
    var mid := (hi + lo) / 2.0;
    assert ratio * hi == mid;
    y := c * ratio;
    Scaled(ratio, 1.0, hi);
    Scaled(0.0, ratio, c);
    Scaled(ratio, 1.0, c);
    Scaled(0.0, lo, c);
    Scaled(lo, mid, c);
    Scaled(mid, hi, c);
    Regroup(c, ratio, hi);
    Negated(c, lo);
    Negated(y, hi);
  }

  lemma Scaled(x: real, y: real, c: real)
    requires 0.0 < c
    ensures x < y <==> c * x < c * y
    ensures c * 0.0 == 0.0 && c * 1.0 == c
  {}

  lemma Regroup(x: real, y: real, z: real)
    ensures (x * y) * z == x * (y * z)
  {}

  lemma Negated(x: real, y: real)
    ensures Times(-x, y) == -Times(x, y)
  {}

  /** A score whose raw display at `now` is `x`. */
  lemma ScoreFor(q: Factor, last: Option<int>, now: int, x: real) returns (score: real)
    ensures Times(score, Pow(q, Elapsed(last, now))) == x
  {
    hide Elapsed, Pow;
    score := x / Pow(q, Elapsed(last, now));
  }

  /** Rows with clocks that fade unequally can change places. */
  lemma UnequalFadeInverts(q: Factor, l1: Option<int>, l2: Option<int>, now: int, later: int)
    requires now <= later && l1.Some? && l2.Some? && Fade(q, l1, now, later) != Fade(q, l2, now, later)
    ensures !OrderKept(q, l1, l2, now, later)
  {
    var x1, x2 := Crossing(Fade(q, l1, now, later), Fade(q, l2, now, later));
    var s1 := ScoreFor(q, l1, now, x1);
    var s2 := ScoreFor(q, l2, now, x2);
    hide Times, ScoreAt, Elapsed, Pow;
    DisplayLater(q, s1, l1, now, later);
    DisplayLater(q, s2, l2, now, later);
    assert ScoreAt(q, s1, l1, now) < ScoreAt(q, s2, l2, now);
  }

  /**
   * Waiting keeps the order of any two scores if and only if one of the rows has no clock, or there is no decay, or
   * as much time elapses for the one as for the other: clocks that have both passed, or the same clock, for instance.
   */
  lemma OrderKeptExactly(q: Factor, l1: Option<int>, l2: Option<int>, now: int, later: int)
    requires now <= later
    ensures OrderKept(q, l1, l2, now, later)
            <==> l1.None? || l2.None? || q == 1.0
                 || Elapsed(l1, later) - Elapsed(l1, now) == Elapsed(l2, later) - Elapsed(l2, now)
  {
    hide OrderKept, Elapsed;
    if l1.None? || l2.None? {
      ClocklessKeeps(q, l1, l2, now, later);
    } else {
      DisplayLater(q, 0.0, l1, now, later);
      DisplayLater(q, 0.0, l2, now, later);
      var d1, d2 := Elapsed(l1, later) - Elapsed(l1, now), Elapsed(l2, later) - Elapsed(l2, now);
      PowInjective(q, d1, d2);
      if Pow(q, d1) == Pow(q, d2) {
        EqualFadeKeeps(q, l1, l2, now, later);
      } else {
        UnequalFadeInverts(q, l1, l2, now, later);
      }
    }
  }

  /** Rows whose clocks have passed keep their displayed order while waiting. */
  lemma WaitingKeepsOrder(q: Factor, s1: real, l1: Option<int>, s2: real, l2: Option<int>, now: int, later: int)
    requires CandidateScore(s1, l1) && CandidateScore(s2, l2) && now <= later
    requires (l1.Some? ==> l1.value <= now) && (l2.Some? ==> l2.value <= now)
    requires ScoreAt(q, s1, l1, now) < ScoreAt(q, s2, l2, now)
    ensures ScoreAt(q, s1, l1, later) <= ScoreAt(q, s2, l2, later)
  {
    hide ScoreAt;
    OrderKeptExactly(q, l1, l2, now, later);
  }

  /** Two rows that do change places: the clock of the second lies in the future. */
  lemma FutureClockInverts()
    ensures ScoreAt(0.5, 2.0, Some(0), 0) > ScoreAt(0.5, 1.5, Some(1), 0)
    ensures ScoreAt(0.5, 2.0, Some(0), 1) < ScoreAt(0.5, 1.5, Some(1), 1)
  {
    assert Pow(0.5, 0) == 1.0;
    assert Pow(0.5, 1) == 0.5;
  }
}
