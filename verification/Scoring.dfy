/** Event-time engagement scoring: each event is weighted, and older weight decays into the clock. */
module Scoring {
  import opened Types
  import opened Decay

  function BaseWeight(k: Kind): real {
    match k
    case Purchase => 5.0
    case Click => 2.0
    case Open => 1.0
    case View => 0.8
    case Delivered => 0.3
    case Send => 0.1
    case Bounce => -1.0
    case Unsubscribe => -3.0
    case Complaint => -5.0
  }

  function ChannelWeight(c: Channel): real {
    match c
    case Email => 1.0
    case Sms => 1.2
    case Whatsapp => 1.3
    case Push => 0.9
    case Web => 1.1
  }

  function Weight(f: Fact): real {
    Times(BaseWeight(f.kind), ChannelWeight(f.channel))
  }

  /** The distance between two times, as the source's absolute day difference. */
  function Gap(a: int, b: int): nat {
    if a < b then b - a else a - b
  }

  /** The new accumulator: a late event decays into the clock, otherwise the accumulator decays to the event. */
  function ComputeNewScore(q: Factor, current: real, last: Option<int>, weight: real, ts: int): real {
    match last
    case None => weight
    case Some(t) =>
      if ts < t then current + Times(weight, Pow(q, Gap(t, ts)))
      else Times(current, Pow(q, Gap(t, ts))) + weight
  }

  function UpdateBreakdown(bd: map<Channel, Tally>, c: Channel, weight: real): map<Channel, Tally> {
    var entry := if c in bd then bd[c] else Tally(0, 0.0);
    bd[c := Tally(entry.count + 1, entry.totalWeight + weight)]
  }

  /** One event folded into a customer's engagement row. */
  function Absorb(q: Factor, eng: Option<Engagement>, f: Fact): Engagement {
    match eng
    case None =>
      Engagement(ComputeNewScore(q, 0.0, None, Weight(f), f.ts), f.ts, UpdateBreakdown(map[], f.channel, Weight(f)))
    case Some(e) =>
      Engagement(ComputeNewScore(q, e.score, Some(e.lastUpdated), Weight(f), f.ts),
                 Max(f.ts, e.lastUpdated),
                 UpdateBreakdown(e.breakdown, f.channel, Weight(f)))
  }

  /** The displayed score: decayed to `now`, never forward-extrapolated before the clock, then clamped. */
  function ScoreAt(q: Factor, score: real, last: Option<int>, now: int): real {
    var elapsed: nat := match last case None => 0 case Some(t) => if t < now then now - t else 0;
    Clamp(Times(score, Pow(q, elapsed)))
  }

  function Clamp(x: real): real {
    if x < -50.0 then -50.0 else if x > 200.0 then 200.0 else x
  }

  /** The kinds of event from the most to the least valued. */
  const BY_VALUE: seq<Kind> := [Purchase, Click, Open, View, Delivered, Send, Bounce, Unsubscribe, Complaint]

  /** The weights of the documentation: a base for each kind, times a factor for each channel. */
  lemma WeightTable(f: Fact)
    ensures var base := map[Purchase := 5.0, Click := 2.0, Open := 1.0, View := 0.8, Delivered := 0.3, Send := 0.1,
                            Bounce := -1.0, Unsubscribe := -3.0, Complaint := -5.0];
            var factor := map[Email := 1.0, Sms := 1.2, Whatsapp := 1.3, Push := 0.9, Web := 1.1];
            f.kind in base && f.channel in factor && Weight(f) == Times(base[f.kind], factor[f.channel])
  {
    hide Times;
    BaseTable(f.kind);
    FactorTable(f.channel);
  }

  lemma BaseTable(k: Kind)
    ensures var base := map[Purchase := 5.0, Click := 2.0, Open := 1.0, View := 0.8, Delivered := 0.3, Send := 0.1,
                            Bounce := -1.0, Unsubscribe := -3.0, Complaint := -5.0];
            k in base && BaseWeight(k) == base[k]
  {
    match k
    case Purchase => {}
    case Click => {}
    case Open => {}
    case View => {}
    case Delivered => {}
    case Send => {}
    case Bounce => {}
    case Unsubscribe => {}
    case Complaint => {}
  }

  lemma FactorTable(c: Channel)
    ensures var factor := map[Email := 1.0, Sms := 1.2, Whatsapp := 1.3, Push := 0.9, Web := 1.1];
            c in factor && ChannelWeight(c) == factor[c]
  {
    match c
    case Email => {}
    case Sms => {}
    case Whatsapp => {}
    case Push => {}
    case Web => {}
  }

  // ---------- The closed form of an accumulator ----------

  /** What one event is worth at time `t`. */
  function Contribution(q: Factor, f: Fact, t: int): real {
    Times(Weight(f), Pow(q, Gap(f.ts, t)))
  }

  ghost function Contributions(q: Factor, done: map<EventId, Fact>, t: int): map<EventId, real> {
    map id | id in done :: Contribution(q, done[id], t)
  }

  ghost function On(done: map<EventId, Fact>, c: Channel): map<EventId, Fact> {
    map id | id in done && done[id].channel == c :: done[id]
  }

  ghost function Weights(done: map<EventId, Fact>): map<EventId, real> {
    map id | id in done :: Weight(done[id])
  }

  ghost predicate IsLatest(done: map<EventId, Fact>, t: int) {
    && (exists id :: id in done && done[id].ts == t)
    && (forall id | id in done :: done[id].ts <= t)
  }

  ghost predicate TalliesMatch(done: map<EventId, Fact>, bd: map<Channel, Tally>) {
    forall c: Channel ::
      && (c in bd <==> On(done, c) != map[])
      && (c in bd ==> bd[c] == Tally(|On(done, c)|, Total(Weights(On(done, c)))))
  }

  /** `eng` is exactly what the events of `done` amount to, whatever order they came in. */
  ghost predicate Summarizes(q: Factor, done: map<EventId, Fact>, eng: Engagement) {
    && IsLatest(done, eng.lastUpdated)
    && eng.score == Total(Contributions(q, done, eng.lastUpdated))
    && TalliesMatch(done, eng.breakdown)
  }

  /** Moving the reference time forward multiplies a contribution by the decay in between. */
  lemma ContributionShift(q: Factor, f: Fact, t: int, u: int)
    requires f.ts <= t <= u
    ensures Contribution(q, f, u) == Times(Contribution(q, f, t), Pow(q, u - t))
  {
    hide Times;
    PowAdd(q, t - f.ts, u - t);
    assert Gap(f.ts, u) == (t - f.ts) + (u - t);
    TimesAssociates(Weight(f), Pow(q, t - f.ts), Pow(q, u - t));
  }

  lemma TotalShift(q: Factor, done: map<EventId, Fact>, t: int, u: int)
    requires forall id | id in done :: done[id].ts <= t
    requires t <= u
    ensures Total(Contributions(q, done, u)) == Times(Total(Contributions(q, done, t)), Pow(q, u - t))
  {
    hide Times;
    forall id | id in done
      ensures Contributions(q, done, u)[id] == Times(Contributions(q, done, t)[id], Pow(q, u - t))
    {
      ContributionShift(q, done[id], t, u);
    }
    TotalScaled(Contributions(q, done, t), Contributions(q, done, u), Pow(q, u - t));
  }

  lemma OnInsert(done: map<EventId, Fact>, id: EventId, f: Fact, c: Channel)
    requires id !in done
    ensures On(done[id := f], c) == if c == f.channel then On(done, c)[id := f] else On(done, c)
  {}

  lemma TallyGrows(done: map<EventId, Fact>, id: EventId, f: Fact)
    requires id !in done
    ensures |done[id := f]| == |done| + 1
    ensures Total(Weights(done[id := f])) == Total(Weights(done)) + Weight(f)
  {
    hide Weight;
    assert done[id := f].Keys == done.Keys + {id};
    assert Weights(done[id := f]) == Weights(done)[id := Weight(f)];
    TotalInsert(Weights(done), id, Weight(f));
  }

  lemma TalliesGrow(done: map<EventId, Fact>, bd: map<Channel, Tally>, id: EventId, f: Fact)
    requires id !in done && TalliesMatch(done, bd)
    ensures TalliesMatch(done[id := f], UpdateBreakdown(bd, f.channel, Weight(f)))
  {
    hide Weight, Total, On;
    forall c: Channel {
      OnInsert(done, id, f, c);
    }
    assert id !in On(done, f.channel) by {
      OnIncluded(done, f.channel);
    }
    TallyGrows(On(done, f.channel), id, f);
    EmptyTally();
  }

  lemma OnIncluded(done: map<EventId, Fact>, c: Channel)
    ensures On(done, c).Keys <= done.Keys
  {}

  lemma EmptyTally()
    ensures Weights(map[]) == map[] && Total(Weights(map[])) == 0.0
  {}

  lemma ContributionNow(q: Factor, f: Fact)
    ensures Contribution(q, f, f.ts) == Weight(f)
  {
    TimesUnits(Weight(f));
  }

  /** The accumulator is the sum of contributions at its clock, on the early and on the late branch. */
  lemma AbsorbSums(q: Factor, done: map<EventId, Fact>, e: Engagement, id: EventId, f: Fact)
    requires id !in done && Summarizes(q, done, e)
    ensures var next := Absorb(q, Some(e), f);
            next.score == Total(Contributions(q, done[id := f], next.lastUpdated))
  {
    hide Times;
    var u := Max(f.ts, e.lastUpdated);
    OneMoreContribution(q, done, id, f, u);
    TotalShift(q, done, e.lastUpdated, u);
    ContributionNow(q, f);
    TimesUnits(e.score);
    hide Contributions, Total, TalliesMatch;
  }

  lemma OneMoreContribution(q: Factor, done: map<EventId, Fact>, id: EventId, f: Fact, u: int)
    requires id !in done
    ensures Total(Contributions(q, done[id := f], u)) == Total(Contributions(q, done, u)) + Contribution(q, f, u)
  {
    hide Contribution, Total;
    assert Contributions(q, done[id := f], u) == Contributions(q, done, u)[id := Contribution(q, f, u)];
    TotalInsert(Contributions(q, done, u), id, Contribution(q, f, u));
  }

  /** Absorbing one more event keeps the row equal to the closed form over all of them. */
  lemma AbsorbSummarizes(q: Factor, done: map<EventId, Fact>, eng: Option<Engagement>, id: EventId, f: Fact)
    requires id !in done
    requires match eng case None => done == map[] case Some(e) => Summarizes(q, done, e)
    ensures Summarizes(q, done[id := f], Absorb(q, eng, f))
  {
    hide Times;
    var all := done[id := f];
    TalliesGrow(done, if eng.Some? then eng.value.breakdown else map[], id, f);
    match eng {
      case Some(e) =>
        AbsorbSums(q, done, e, id, f);
        LatestGrows(done, e.lastUpdated, id, f);
      case None =>
        assert all[id] == f;
        ContributionNow(q, f);
        assert Contributions(q, all, f.ts) == map[id := Weight(f)];
        TotalPick(Contributions(q, all, f.ts), id);
    }
  }

  lemma LatestGrows(done: map<EventId, Fact>, t: int, id: EventId, f: Fact)
    requires id !in done && IsLatest(done, t)
    ensures IsLatest(done[id := f], Max(f.ts, t))
  {
    var all := done[id := f];
    var w :| w in done && done[w].ts == t;
    assert all[w].ts == t && all[id].ts == f.ts;
  }

  /** The row is determined by the set of events: no order, batching or history can show in it. */
  lemma SummaryUnique(q: Factor, done: map<EventId, Fact>, a: Engagement, b: Engagement)
    requires Summarizes(q, done, a) && Summarizes(q, done, b)
    ensures a == b
  {
    assert a.breakdown.Keys == b.breakdown.Keys;
    assert a.breakdown == b.breakdown;
  }
}
