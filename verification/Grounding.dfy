/**
 * The grounding guard: the two number scanners over ASCII text, and the classes a number may be accepted under.
 * A scanner's match is first described as the pattern says it, then shown to be the one the scanning functions find.
 */
module Grounding {

  // ---------- Characters ----------

  predicate IsDigit(c: char) {
    '0' <= c <= '9'
  }

  /** Digits and thousands separators. */
  predicate IsGrouped(c: char) {
    IsDigit(c) || c == ','
  }

  predicate IsSpace(c: char) {
    9 <= c as int <= 13 || 28 <= c as int <= 32
  }

  predicate IsSpaceOrHyphen(c: char) {
    IsSpace(c) || c == '-'
  }

  predicate IsWord(c: char) {
    IsDigit(c) || 'a' <= c <= 'z' || 'A' <= c <= 'Z' || c == '_'
  }

  predicate All(s: string, from: nat, to: nat, member: char -> bool)
    requires from <= to <= |s|
  {
    forall k | from <= k < to :: member(s[k])
  }

  /** The end of the longest run of `member` characters that starts at `i`. */
  function RunEnd(s: string, i: nat, member: char -> bool): (end: nat)
    requires i <= |s|
    ensures i <= end <= |s| && All(s, i, end, member)
    ensures end < |s| ==> !member(s[end])
    decreases |s| - i
  {
    if i < |s| && member(s[i]) then RunEnd(s, i + 1, member) else i
  }

  lemma RunEndUnique(s: string, i: nat, j: nat, member: char -> bool)
    requires i <= j <= |s| && All(s, i, j, member) && (j < |s| ==> !member(s[j]))
    ensures RunEnd(s, i, member) == j
  {
  }

  // ---------- Numerals ----------

  datatype Span = Span(start: nat, end: nat) {
    predicate Has(k: nat) {
      start <= k < end
    }
  }

  /** The pattern of a numeral: a digit, digits and commas, and optionally a point and digits. */
  ghost predicate IsNumeral(s: string, i: nat, j: nat) {
    && i < j <= |s| && IsDigit(s[i])
    && exists m: nat | i < m <= j :: NumeralSplit(s, i, m, j)
  }

  ghost predicate NumeralSplit(s: string, i: nat, m: nat, j: nat)
    requires i < m <= j <= |s|
  {
    && All(s, i, m, IsGrouped)
    && (m == j || (s[m] == '.' && m + 1 < j && All(s, m + 1, j, IsDigit)))
  }

  /** The numeral that starts at the digit `i`, every part of it as long as it can be. */
  function NumeralEnd(s: string, i: nat): (end: nat)
    requires i < |s| && IsDigit(s[i])
    ensures i < end <= |s|
    ensures end < |s| ==> !IsDigit(s[end])
  {
    var m := RunEnd(s, i, IsGrouped);
    if m + 1 < |s| && s[m] == '.' && IsDigit(s[m + 1]) then RunEnd(s, m + 1, IsDigit) else m
  }

  /** The numeral found is a match of the pattern, and no match from the same digit is longer. */
  lemma NumeralIsLongest(s: string, i: nat)
    requires i < |s| && IsDigit(s[i])
    ensures IsNumeral(s, i, NumeralEnd(s, i))
    ensures forall j: nat | IsNumeral(s, i, j) :: j <= NumeralEnd(s, i)
  {
    var m := RunEnd(s, i, IsGrouped);
    assert NumeralSplit(s, i, m, NumeralEnd(s, i));
    forall j: nat | IsNumeral(s, i, j)
      ensures j <= NumeralEnd(s, i)
    {
      var split: nat :| i < split <= j && NumeralSplit(s, i, split, j);
      SplitBelow(s, i, split, j);
    }
  }

  /** Only the longest run of digits and commas leaves a point, or a character that is neither, behind it. */
  lemma SplitBelow(s: string, i: nat, split: nat, j: nat)
    requires i < split <= j <= |s| && IsDigit(s[i]) && NumeralSplit(s, i, split, j)
    ensures j <= NumeralEnd(s, i)
    ensures j < |s| && !IsGrouped(s[j]) && s[j] != '.' ==> j == NumeralEnd(s, i)
    ensures j == |s| ==> j == NumeralEnd(s, i)
  {
    var m := RunEnd(s, i, IsGrouped);
    if split < m {
      assert IsGrouped(s[split]);
    } else {
      RunEndWithin(s, i, split, m, IsGrouped);
      if split < j {
        var e := RunEnd(s, m + 1, IsDigit);
        RunEndWithin(s, m + 1, j, e, IsDigit);
      }
    }
  }

  lemma RunEndWithin(s: string, i: nat, j: nat, end: nat, member: char -> bool)
    requires i <= j <= |s| && i <= end <= |s| && All(s, i, j, member) && (end < |s| ==> !member(s[end]))
    ensures j <= end
  {
  }

  /** Neither a digit nor a point stands before `i`. */
  predicate Unattached(s: string, i: nat)
    requires i <= |s|
  {
    i == 0 || (!IsDigit(s[i - 1]) && s[i - 1] != '.')
  }

  predicate PercentFollows(s: string, j: nat)
    requires j <= |s|
  {
    var e := RunEnd(s, j, IsSpace);
    e < |s| && s[e] == '%'
  }

  /** The percentage pattern: an unattached numeral, spaces and a percent sign, which ends at `e`. */
  ghost predicate MatchesPercent(s: string, i: nat, j: nat, e: nat) {
    && IsNumeral(s, i, j) && Unattached(s, i)
    && j < e <= |s| && All(s, j, e - 1, IsSpace) && s[e - 1] == '%'
  }

  predicate PercentAt(s: string, i: nat) {
    i < |s| && IsDigit(s[i]) && Unattached(s, i) && PercentFollows(s, NumeralEnd(s, i))
  }

  function AfterPercent(s: string, i: nat): (end: nat)
    requires PercentAt(s, i)
    ensures NumeralEnd(s, i) < end <= |s|
  {
    RunEnd(s, NumeralEnd(s, i), IsSpace) + 1
  }

  /** However an engine backtracks, a percentage can match at a place in one way only. */
  lemma PercentMatchUnique(s: string, i: nat, j: nat, e: nat)
    ensures MatchesPercent(s, i, j, e)
            <==> PercentAt(s, i) && j == NumeralEnd(s, i) && e == AfterPercent(s, i)
  {
    if MatchesPercent(s, i, j, e) {
      var split: nat :| i < split <= j && NumeralSplit(s, i, split, j);
      SplitBelow(s, i, split, j);
      if j < e - 1 {
        assert IsSpace(s[j]);
      }
      RunEndUnique(s, j, e - 1, IsSpace);
    }
    if PercentAt(s, i) && j == NumeralEnd(s, i) && e == AfterPercent(s, i) {
      NumeralIsLongest(s, i);
    }
  }

  /** Wherever a numeral is entered within its digits and commas, it ends at the same place. */
  lemma SameEnd(s: string, c: nat, a: nat)
    requires c <= a < |s| && IsDigit(s[c]) && IsDigit(s[a]) && a < RunEnd(s, c, IsGrouped)
    ensures NumeralEnd(s, a) == NumeralEnd(s, c)
  {
    RunEndUnique(s, a, RunEnd(s, c, IsGrouped), IsGrouped);
  }

  /** An unattached digit inside a numeral is not in its fraction. */
  lemma UnattachedInside(s: string, c: nat, a: nat)
    requires c < |s| && IsDigit(s[c]) && c <= a < NumeralEnd(s, c) && IsDigit(s[a]) && (c == a || Unattached(s, a))
    ensures a < RunEnd(s, c, IsGrouped) && NumeralEnd(s, a) == NumeralEnd(s, c)
    ensures c < a ==> s[a - 1] == ','
  {
    var m := RunEnd(s, c, IsGrouped);
    assert forall k | m + 1 <= k < NumeralEnd(s, c) :: IsDigit(s[k]);
    SameEnd(s, c, a);
    assert c < a ==> IsGrouped(s[a - 1]);
  }

  // ---------- The scanners ----------

  /** The percentages of a text from `p` on: the leftmost match, then the matches after its percent sign. */
  function Percentages(s: string, p: nat): seq<Span>
    requires p <= |s|
    decreases |s| - p
  {
    if p == |s| then []
    else if PercentAt(s, p) then [Span(p, NumeralEnd(s, p))] + Percentages(s, AfterPercent(s, p))
    else Percentages(s, p + 1)
  }

  /** The plain numerals of a text from `p` on. A currency sign and spaces before one belong to its match, not to it. */
  function Numerals(s: string, p: nat): seq<Span>
    requires p <= |s|
    decreases |s| - p
  {
    if p == |s| then []
    else if IsDigit(s[p]) then [Span(p, NumeralEnd(s, p))] + Numerals(s, NumeralEnd(s, p))
    else Numerals(s, p + 1)
  }

  /** The prefix of a plain match that starts at `i`: at most one currency sign, then spaces, then the digit `g`. */
  ghost predicate PlainPrefix(s: string, i: nat, g: nat) {
    && i <= g < |s| && IsDigit(s[g])
    && (All(s, i, g, IsSpace) || (i < g && s[i] == '$' && All(s, i + 1, g, IsSpace)))
  }

  /** The leftmost plain match at or after `p` has its numeral at the first digit at or after `p`. */
  lemma PlainMatchStartsAtNextDigit(s: string, p: nat, i: nat, g: nat)
    requires p <= i && PlainPrefix(s, i, g)
    requires forall i': nat, g': nat | p <= i' && PlainPrefix(s, i', g') :: i <= i'
    ensures forall k | p <= k < g :: !IsDigit(s[k])
  {
    forall k: nat | p <= k < |s| && IsDigit(s[k])
      ensures i <= k
    {
      assert PlainPrefix(s, k, k);
    }
  }

  predicate Separated(spans: seq<Span>) {
    && (forall sp | sp in spans :: sp.start < sp.end)
    && forall i, j | 0 <= i < j < |spans| :: spans[i].end <= spans[j].start
  }

  lemma PrependSeparated(sp: Span, rest: seq<Span>)
    requires sp.start < sp.end && Separated(rest) && forall r | r in rest :: sp.end <= r.start
    ensures Separated([sp] + rest)
  {
    var spans := [sp] + rest;
    assert forall j | 0 < j < |spans| :: spans[j] == rest[j - 1] && spans[j] in rest;
  }

  lemma {:induction false} NumeralsSpan(s: string, p: nat)
    requires p <= |s|
    ensures Separated(Numerals(s, p))
    ensures forall sp | sp in Numerals(s, p) ::
              p <= sp.start < |s| && IsDigit(s[sp.start]) && sp.end == NumeralEnd(s, sp.start)
    decreases |s| - p
  {
    hide NumeralEnd, Separated;
    if p == |s| {
      NoneSeparated();
    } else if IsDigit(s[p]) {
      NumeralsSpan(s, NumeralEnd(s, p));
      PrependSeparated(Span(p, NumeralEnd(s, p)), Numerals(s, NumeralEnd(s, p)));
    } else {
      NumeralsSpan(s, p + 1);
    }
  }

  lemma NoneSeparated()
    ensures Separated([])
  {
  }

  /** Every digit is in a plain numeral. */
  lemma {:induction false} NumeralsCover(s: string, p: nat, k: nat)
    requires p <= k < |s| && IsDigit(s[k])
    ensures exists sp | sp in Numerals(s, p) :: sp.Has(k)
    decreases |s| - p
  {
    if IsDigit(s[p]) {
      var end := NumeralEnd(s, p);
      var first := Span(p, end);
      assert first in Numerals(s, p);
      if k < end {
        assert first.Has(k);
      } else {
        NumeralsCover(s, end, k);
        var sp :| sp in Numerals(s, end) && sp.Has(k);
        assert sp in Numerals(s, p);
      }
    } else {
      NumeralsCover(s, p + 1, k);
    }
  }

  /** No plain numeral begins right behind a digit. */
  lemma {:induction false} NumeralsStartFresh(s: string, p: nat)
    requires p <= |s| && (0 < p < |s| && IsDigit(s[p]) ==> !IsDigit(s[p - 1]))
    ensures forall sp | sp in Numerals(s, p) :: 0 < sp.start <= |s| ==> !IsDigit(s[sp.start - 1])
    decreases |s| - p
  {
    if p == |s| {
    } else if IsDigit(s[p]) {
      NumeralsStartFresh(s, NumeralEnd(s, p));
    } else {
      NumeralsStartFresh(s, p + 1);
    }
  }

  lemma {:induction false} PercentagesSpan(s: string, p: nat)
    requires p <= |s|
    ensures Separated(Percentages(s, p))
    ensures forall sp | sp in Percentages(s, p) ::
              p <= sp.start && PercentAt(s, sp.start) && sp.end == NumeralEnd(s, sp.start)
    decreases |s| - p
  {
    hide NumeralEnd, Separated;
    if p == |s| {
      NoneSeparated();
    } else if PercentAt(s, p) {
      PercentagesSpan(s, AfterPercent(s, p));
      PrependSeparated(Span(p, NumeralEnd(s, p)), Percentages(s, AfterPercent(s, p)));
    } else {
      PercentagesSpan(s, p + 1);
    }
  }

  lemma NoDigitsBeforePercent(s: string, p: nat)
    requires PercentAt(s, p)
    ensures forall k | NumeralEnd(s, p) <= k < AfterPercent(s, p) :: !IsDigit(s[k])
  {
    hide NumeralEnd;
  }

  /** Wherever a percentage can match, the numeral it would end is found as a percentage, from there or from before. */
  lemma {:induction false} PercentagesComplete(s: string, p: nat, a: nat)
    requires p <= a && PercentAt(s, a)
    ensures exists sp | sp in Percentages(s, p) :: sp.start <= a && sp.end == NumeralEnd(s, a)
    decreases |s| - p
  {
    if PercentAt(s, p) {
      var first := Span(p, NumeralEnd(s, p));
      assert first in Percentages(s, p);
      if a < AfterPercent(s, p) {
        NoDigitsBeforePercent(s, p);
        UnattachedInside(s, p, a);
      } else {
        hide NumeralEnd;
        PercentagesComplete(s, AfterPercent(s, p), a);
        var sp :| sp in Percentages(s, AfterPercent(s, p)) && sp.start <= a && sp.end == NumeralEnd(s, a);
        assert sp in Percentages(s, p);
      }
    } else {
      hide PercentAt, NumeralEnd;
      PercentagesComplete(s, p + 1, a);
    }
  }

  // ---------- What is judged ----------

  /** A plain match is skipped when its numeral begins inside a percentage. */
  predicate Skipped(sp: Span, percentages: seq<Span>) {
    exists q | q in percentages :: q.Has(sp.start)
  }

  function Unskipped(numerals: seq<Span>, percentages: seq<Span>): seq<Span> {
    if numerals == [] then []
    else
      var rest := Unskipped(numerals[1..], percentages);
      if Skipped(numerals[0], percentages) then rest else [numerals[0]] + rest
  }

  /** The numerals of a text that are judged: its percentages, then the plain numerals that are not skipped. */
  function Judged(s: string): seq<Span> {
    Percentages(s, 0) + Unskipped(Numerals(s, 0), Percentages(s, 0))
  }

  /** How many of the spans hold position `k`. */
  function Hits(spans: seq<Span>, k: nat): nat {
    if spans == [] then 0 else (if spans[0].Has(k) then 1 else 0) + Hits(spans[1..], k)
  }

  lemma {:induction false} HitsConcat(a: seq<Span>, b: seq<Span>, k: nat)
    ensures Hits(a + b, k) == Hits(a, k) + Hits(b, k)
  {
    if a == [] {
      assert a + b == b;
    } else {
      HitsConcat(a[1..], b, k);
      assert (a + b)[1..] == a[1..] + b;
    }
  }

  lemma {:induction false} HitsSeparated(spans: seq<Span>, k: nat)
    requires Separated(spans)
    ensures Hits(spans, k) == if exists sp | sp in spans :: sp.Has(k) then 1 else 0
  {
    if spans != [] {
      var rest := spans[1..];
      assert forall sp | sp in rest :: sp in spans;
      assert forall i | 0 <= i < |rest| :: rest[i] == spans[i + 1];
      HitsSeparated(rest, k);
      if spans[0].Has(k) {
        assert forall sp | sp in rest :: spans[0].end <= sp.start;
        assert spans[0] in spans;
      } else if exists sp | sp in spans :: sp.Has(k) {
        var sp :| sp in spans && sp.Has(k);
        assert sp in rest;
      }
    }
  }

  lemma {:induction false} UnskippedMembers(numerals: seq<Span>, percentages: seq<Span>)
    requires Separated(numerals)
    ensures Separated(Unskipped(numerals, percentages))
    ensures forall sp :: sp in Unskipped(numerals, percentages) <==> sp in numerals && !Skipped(sp, percentages)
  {
    if numerals != [] {
      hide Skipped;
      var rest := numerals[1..];
      assert forall sp | sp in rest :: sp in numerals;
      assert forall i | 0 <= i < |rest| :: rest[i] == numerals[i + 1];
      assert numerals[0] in numerals;
      UnskippedMembers(rest, percentages);
      assert forall sp | sp in rest :: numerals[0].end <= sp.start;
      PrependSeparated(numerals[0], Unskipped(rest, percentages));
    }
  }

  /** Two separated spans that share a position are one. */
  lemma SeparatedSame(spans: seq<Span>, a: Span, b: Span, k: nat)
    requires Separated(spans) && a in spans && b in spans && a.Has(k) && b.Has(k)
    ensures a == b
  {
    var i :| 0 <= i < |spans| && spans[i] == a;
    var j :| 0 <= j < |spans| && spans[j] == b;
    assert forall x, y | 0 <= x < y < |spans| :: !spans[x].Has(k) || !spans[y].Has(k);
  }

  /** A percentage is the tail of a plain numeral: the whole of it, or all of it behind one of its commas. */
  lemma PercentageEndsNumeral(s: string, q: Span) returns (sp: Span)
    requires q in Percentages(s, 0)
    ensures sp in Numerals(s, 0) && sp.start <= q.start < q.end == sp.end <= |s|
    ensures sp.start < q.start ==> s[q.start - 1] == ','
  {
    PercentagesSpan(s, 0);
    NumeralsSpan(s, 0);
    NumeralsCover(s, 0, q.start);
    sp :| sp in Numerals(s, 0) && sp.Has(q.start);
    UnattachedInside(s, sp.start, q.start);
  }

  /** A skipped plain numeral is exactly a percentage. */
  lemma SkippedIsPercentage(s: string, sp: Span)
    requires sp in Numerals(s, 0)
    ensures Skipped(sp, Percentages(s, 0)) <==> sp in Percentages(s, 0)
  {
    hide Numerals, Percentages, Separated;
    NumeralsSpan(s, 0);
    PercentagesSpan(s, 0);
    if Skipped(sp, Percentages(s, 0)) {
      var q :| q in Percentages(s, 0) && q.Has(sp.start);
      var outer := PercentageEndsNumeral(s, q);
      SeparatedSame(Numerals(s, 0), sp, outer, sp.start);
      assert sp == q;
    }
    if sp in Percentages(s, 0) {
      assert sp.Has(sp.start);
    }
  }

  /** A digit that is inside a percentage and also inside a longer plain numeral, which is judged as well. */
  ghost predicate JudgedTwice(s: string, k: nat) {
    exists q, sp | q in Percentages(s, 0) && sp in Numerals(s, 0) :: q.Has(k) && sp.Has(k) && sp.start < q.start
  }

  /** Every digit is judged, once, or twice when a percentage is only the tail of the plain numeral around it. */
  lemma DigitJudged(s: string, k: nat)
    requires k < |s| && IsDigit(s[k])
    ensures Hits(Judged(s), k) == if JudgedTwice(s, k) then 2 else 1
  {
    hide Numerals, Percentages, Separated, Hits, Unskipped, Skipped;
    var numerals, percentages := Numerals(s, 0), Percentages(s, 0);
    NumeralsSpan(s, 0);
    PercentagesSpan(s, 0);
    UnskippedMembers(numerals, percentages);
    HitsConcat(percentages, Unskipped(numerals, percentages), k);
    HitsSeparated(percentages, k);
    HitsSeparated(Unskipped(numerals, percentages), k);
    NumeralsCover(s, 0, k);
    var sp :| sp in numerals && sp.Has(k);
    SkippedIsPercentage(s, sp);
    forall other | other in Unskipped(numerals, percentages) && other.Has(k)
      ensures other == sp
    {
      SeparatedSame(numerals, sp, other, k);
    }
    if JudgedTwice(s, k) {
      TwiceIsTwo(s, k, sp);
    } else if exists q | q in percentages :: q.Has(k) {
      var q :| q in percentages && q.Has(k);
      var outer := PercentageEndsNumeral(s, q);
      SeparatedSame(numerals, sp, outer, k);
      assert q == sp;
    }
  }

  lemma TwiceIsTwo(s: string, k: nat, sp: Span)
    requires k < |s| && JudgedTwice(s, k) && sp in Numerals(s, 0) && sp.Has(k)
    ensures exists q | q in Percentages(s, 0) :: q.Has(k)
    ensures sp !in Percentages(s, 0)
  {
    hide Numerals, Percentages, Separated;
    var q, outer :| q in Percentages(s, 0) && outer in Numerals(s, 0)
                    && q.Has(k) && outer.Has(k) && outer.start < q.start;
    NumeralsSpan(s, 0);
    PercentagesSpan(s, 0);
    SeparatedSame(Numerals(s, 0), sp, outer, k);
    if sp in Percentages(s, 0) {
      SeparatedSame(Percentages(s, 0), sp, q, k);
    }
  }

  /**
   * A plain numeral behind a point, with a comma and a digit inside, before a percent sign. No percentage can start
   * at its first digit, so one starts behind the comma.
   */
  predicate PointedGroup(s: string, sp: Span) {
    && 0 < sp.start < sp.end <= |s| && s[sp.start - 1] == '.' && IsDigit(s[sp.start])
    && PercentFollows(s, sp.end)
    && exists a | sp.start < a < RunEnd(s, sp.start, IsGrouped) :: s[a - 1] == ',' && IsDigit(s[a])
  }

  lemma PointedGroupTwice(s: string, sp: Span) returns (k: nat)
    requires sp in Numerals(s, 0) && PointedGroup(s, sp)
    ensures k < |s| && IsDigit(s[k]) && JudgedTwice(s, k)
  {
    hide Numerals, Percentages, Separated;
    NumeralsSpan(s, 0);
    k := PercentageInsideGroup(s, sp);
    hide NumeralEnd, PercentAt, PointedGroup;
    PercentagesComplete(s, 0, k);
    var q :| q in Percentages(s, 0) && q.start <= k && q.end == NumeralEnd(s, k);
    PercentagesSpan(s, 0);
    var outer := PercentageEndsNumeral(s, q);
    SeparatedSame(Numerals(s, 0), sp, outer, k);
  }

  /** Behind its comma a percentage could begin, but none could at the group's first digit. */
  lemma PercentageInsideGroup(s: string, sp: Span) returns (k: nat)
    requires PointedGroup(s, sp) && sp.end == NumeralEnd(s, sp.start)
    ensures sp.start < k < sp.end <= |s| && IsDigit(s[k]) && NumeralEnd(s, k) == sp.end
    ensures PercentAt(s, k) && !PercentAt(s, sp.start)
  {
    k :| sp.start < k < RunEnd(s, sp.start, IsGrouped) && s[k - 1] == ',' && IsDigit(s[k]);
    SameEnd(s, sp.start, k);
    hide RunEnd;
  }

  lemma TwicePointedGroup(s: string, k: nat) returns (sp: Span)
    requires k < |s| && JudgedTwice(s, k)
    ensures sp in Numerals(s, 0) && PointedGroup(s, sp)
  {
    hide Numerals, Percentages, Separated, PointedGroup, NumeralEnd, PercentFollows;
    NumeralsSpan(s, 0);
    NumeralsStartFresh(s, 0);
    PercentagesSpan(s, 0);
    var q;
    q, sp :| q in Percentages(s, 0) && sp in Numerals(s, 0) && q.Has(k) && sp.Has(k) && sp.start < q.start;
    var outer := PercentageEndsNumeral(s, q);
    SeparatedSame(Numerals(s, 0), sp, outer, k);
    LaterPercentageOnly(s, sp.start, q);
    PointedGroupAround(s, sp, q.start);
  }

  lemma PointedGroupAround(s: string, sp: Span, a: nat)
    requires sp.start < a < sp.end <= |s| && IsDigit(s[sp.start]) && NumeralEnd(s, sp.start) == sp.end
    requires PercentAt(s, a) && !PercentAt(s, sp.start) && (sp.start > 0 ==> !IsDigit(s[sp.start - 1]))
    ensures PointedGroup(s, sp)
  {
    UnattachedInside(s, sp.start, a);
  }

  /** A percentage that begins inside a numeral means none could begin where the numeral does. */
  lemma LaterPercentageOnly(s: string, c: nat, q: Span)
    requires q in Percentages(s, 0) && c < q.start < q.end <= |s| && IsDigit(s[c]) && NumeralEnd(s, c) == q.end
    ensures !PercentAt(s, c)
  {
    hide Percentages, Separated, NumeralEnd;
    PercentagesSpan(s, 0);
    if PercentAt(s, c) {
      PercentagesComplete(s, 0, c);
      var other :| other in Percentages(s, 0) && other.start <= c && other.end == q.end;
      SeparatedSame(Percentages(s, 0), other, q, q.start);
    }
  }

  /** The two scanners judge every digit exactly once if and only if no plain numeral is a pointed group. */
  lemma DigitsJudgedOnce(s: string)
    ensures (forall k: nat | k < |s| && IsDigit(s[k]) :: Hits(Judged(s), k) == 1)
            <==> (forall sp | sp in Numerals(s, 0) :: !PointedGroup(s, sp))
  {
    hide Numerals, Judged, Hits, PointedGroup, JudgedTwice;
    if sp :| sp in Numerals(s, 0) && PointedGroup(s, sp) {
      var k := PointedGroupTwice(s, sp);
      DigitJudged(s, k);
    } else {
      forall k: nat | k < |s| && IsDigit(s[k])
        ensures Hits(Judged(s), k) == 1
      {
        DigitJudged(s, k);
        if JudgedTwice(s, k) {
          var sp := TwicePointedGroup(s, k);
        }
      }
    }
  }

  /** The scanners do not judge every digit once: the 4 of this text is judged as 4% and again inside 3,4. */
  lemma SomeDigitJudgedTwice()
    ensures var s := ".3,4%"; Hits(Judged(s), 3) == 2
  {
    var s := ".3,4%";
    assert RunEnd(s, 1, IsGrouped) == 4;
    assert NumeralEnd(s, 1) == 4 && NumeralEnd(s, 3) == 4;
    assert PercentAt(s, 3);
    NumeralsCover(s, 0, 1);
    var sp :| sp in Numerals(s, 0) && sp.Has(1);
    NumeralsSpan(s, 0);
    assert s[2] == ',' && IsDigit(s[3]) && sp == Span(1, 4);
    assert PointedGroup(s, sp);
    hide PointedGroup, Judged, Hits, Numerals, Percentages, NumeralEnd, RunEnd;
    var k := PointedGroupTwice(s, sp);
    DigitJudged(s, k);
  }

  // ---------- The numbers the system knows ----------

  /** An entry of the context: a number (booleans are not), or anything else. */
  datatype Entry = Number(value: real) | Other

  /** Metrics in the order of their dictionary; an absent entry reads as `Other`. */
  datatype Context = Context(metrics: seq<(string, Entry)>, audienceSize: Entry, sample: map<string, Entry>)

  const SAMPLE_KEYS: seq<string> := ["count", "mean", "max", "min"]

  function SampleEntry(sample: map<string, Entry>, key: string): Entry {
    if key in sample then sample[key] else Other
  }

  /** What one metric stores: its value, and its percentage form if it is a ratio. */
  function MetricNumbers(name: string, entry: Entry): seq<(string, real)> {
    if !entry.Number? then []
    else [(name, entry.value)] + (if 0.0 <= entry.value <= 1.0 then [(name + "_pct", entry.value * 100.0)] else [])
  }

  function MetricsNumbers(metrics: seq<(string, Entry)>): seq<(string, real)> {
    if metrics == [] then []
    else
      var last := metrics[|metrics| - 1];
      MetricsNumbers(metrics[..|metrics| - 1]) + MetricNumbers(last.0, last.1)
  }

  function AudienceNumbers(entry: Entry): seq<(string, real)> {
    if entry.Number? then [("audience_size", entry.value)] else []
  }

  function SampleNumbers(sample: map<string, Entry>, n: nat): seq<(string, real)>
    requires n <= |SAMPLE_KEYS|
  {
    if n == 0 then []
    else
      var entry := SampleEntry(sample, SAMPLE_KEYS[n - 1]);
      SampleNumbers(sample, n - 1)
      + (if entry.Number? then [("engagement_sample_" + SAMPLE_KEYS[n - 1], entry.value)] else [])
  }

  /** Every number of the context with the name it is stored under, in the order they are stored. */
  function ContextNumbers(context: Context): seq<(string, real)> {
    MetricsNumbers(context.metrics) + AudienceNumbers(context.audienceSize)
    + SampleNumbers(context.sample, |SAMPLE_KEYS|)
  }

  /** A dictionary after storing entries in order: the last one under a name wins. */
  function Stored(entries: seq<(string, real)>): map<string, real> {
    if entries == [] then map[]
    else Stored(entries[..|entries| - 1])[entries[|entries| - 1].0 := entries[|entries| - 1].1]
  }

  lemma StoredMore(entries: seq<(string, real)>, entry: (string, real))
    ensures Stored(entries + [entry]) == Stored(entries)[entry.0 := entry.1]
  {
    assert (entries + [entry])[..|entries|] == entries;
  }

  /** Everything known is a number of the context. */
  lemma {:induction false} StoredFrom(entries: seq<(string, real)>, name: string)
    requires name in Stored(entries)
    ensures (name, Stored(entries)[name]) in entries
  {
    var n := |entries| - 1;
    if entries[n].0 != name {
      StoredFrom(entries[..n], name);
    } else {
      assert entries[n] == (name, Stored(entries)[name]);
    }
  }

  /** A number of the context is known unless a later one has taken its name. */
  lemma {:induction false} StoredUnlessReplaced(entries: seq<(string, real)>, i: nat)
    requires i < |entries| && forall j | i < j < |entries| :: entries[j].0 != entries[i].0
    ensures entries[i].0 in Stored(entries) && Stored(entries)[entries[i].0] == entries[i].1
  {
    var n := |entries| - 1;
    if i < n {
      assert entries[..n][i] == entries[i];
      StoredUnlessReplaced(entries[..n], i);
    }
  }

  lemma MetricsNumbersMore(metrics: seq<(string, Entry)>, i: nat)
    requires i < |metrics|
    ensures MetricsNumbers(metrics[..i + 1])
            == MetricsNumbers(metrics[..i]) + MetricNumbers(metrics[i].0, metrics[i].1)
  {
    assert metrics[..i + 1][..i] == metrics[..i];
  }

  /** What the loop stores for one metric. */
  lemma StoredMetric(stored: seq<(string, real)>, name: string, entry: Entry)
    ensures Stored(stored + MetricNumbers(name, entry))
            == if !entry.Number? then Stored(stored)
               else if 0.0 <= entry.value <= 1.0
               then Stored(stored)[name := entry.value][name + "_pct" := entry.value * 100.0]
               else Stored(stored)[name := entry.value]
  {
    hide Stored;
    if !entry.Number? {
      assert stored + MetricNumbers(name, entry) == stored;
    } else {
      StoredMore(stored, (name, entry.value));
      StoredMore(stored + [(name, entry.value)], (name + "_pct", entry.value * 100.0));
      if 0.0 <= entry.value <= 1.0 {
        assert stored + MetricNumbers(name, entry)
            == stored + [(name, entry.value)] + [(name + "_pct", entry.value * 100.0)];
      } else {
        assert stored + MetricNumbers(name, entry) == stored + [(name, entry.value)];
      }
    }
  }

  /** extract_context_numbers. */
  method ExtractContextNumbers(context: Context) returns (known: map<string, real>)
    ensures known == Stored(ContextNumbers(context))
  {
    hide Stored, MetricsNumbers, SampleNumbers;
    known := StoreMetrics(context.metrics);
    ghost var stored := MetricsNumbers(context.metrics);
    if context.audienceSize.Number? {
      known := known["audience_size" := context.audienceSize.value];
      StoredMore(stored, ("audience_size", context.audienceSize.value));
    } else {
      assert stored + AudienceNumbers(context.audienceSize) == stored;
    }
    known := StoreSample(known, context.sample, stored + AudienceNumbers(context.audienceSize));
  }

  method StoreMetrics(metrics: seq<(string, Entry)>) returns (known: map<string, real>)
    ensures known == Stored(MetricsNumbers(metrics))
  {
    known := map[];
    for i := 0 to |metrics|
      invariant known == Stored(MetricsNumbers(metrics[..i]))
    {
      var name, entry := metrics[i].0, metrics[i].1;
      MetricsNumbersMore(metrics, i);
      StoredMetric(MetricsNumbers(metrics[..i]), name, entry);
      hide *;
      if entry.Number? {
        known := known[name := entry.value];
        if 0.0 <= entry.value <= 1.0 {
          known := known[name + "_pct" := entry.value * 100.0];
        }
      }
    }
    assert metrics[..|metrics|] == metrics;
  }

  method StoreSample(before: map<string, real>, sample: map<string, Entry>, ghost stored: seq<(string, real)>)
      returns (known: map<string, real>)
    requires before == Stored(stored)
    ensures known == Stored(stored + SampleNumbers(sample, |SAMPLE_KEYS|))
  {
    hide Stored;
    known := before;
    assert stored + SampleNumbers(sample, 0) == stored;
    for i := 0 to |SAMPLE_KEYS|
      invariant known == Stored(stored + SampleNumbers(sample, i))
    {
      var entry := SampleEntry(sample, SAMPLE_KEYS[i]);
      if entry.Number? {
        var name := "engagement_sample_" + SAMPLE_KEYS[i];
        known := known[name := entry.value];
        StoredMore(stored + SampleNumbers(sample, i), (name, entry.value));
        assert stored + SampleNumbers(sample, i + 1) == stored + SampleNumbers(sample, i) + [(name, entry.value)];
      } else {
        assert stored + SampleNumbers(sample, i + 1) == stored + SampleNumbers(sample, i);
      }
    }
  }

  // ---------- The classes a number is accepted under ----------

  const MAX_TARGET_DELTA_PCT: real := 10.0
  const PCT_TOLERANCE_PP: real := 1.0
  const ABS_REL_TOLERANCE: real := 0.005

  const TIME_UNITS: seq<string> :=
    ["day", "days", "week", "weeks", "hour", "hours", "month", "months", "year", "years",
     "minute", "minutes", "second", "seconds"]

  const DIRECTIONAL_VERBS: seq<string> :=
    ["increase", "boost", "raise", "lift", "grow", "improve", "uplift", "gain", "reduce", "decrease",
     "lower", "drop", "cut", "double", "triple", "halve"]

  function Abs(x: real): real {
    if x < 0.0 then -x else x
  }

  function Tolerance(known: real): real {
    if 0.01 < ABS_REL_TOLERANCE * Abs(known) then ABS_REL_TOLERANCE * Abs(known) else 0.01
  }

  predicate WithinPct(value: real, known: map<string, real>) {
    exists name | name in known :: Abs(value - known[name]) <= PCT_TOLERANCE_PP
  }

  /** _within_abs: the loop over the known numbers, left at the first one near enough. */
  method WithinAbs(value: real, known: map<string, real>) returns (found: bool)
    ensures found <==> exists name | name in known :: Abs(value - known[name]) <= Tolerance(known[name])
  {
    var left := known.Keys;
    while left != {}
      invariant left <= known.Keys
      invariant forall name | name in known.Keys - left :: Abs(value - known[name]) > Tolerance(known[name])
    {
      var name :| name in left;
      if Abs(value - known[name]) <= Tolerance(known[name]) {
        return true;
      }
      left := left - {name};
    }
    return false;
  }

  function Lower(s: string): string {
    seq(|s|, i requires 0 <= i < |s| => if 'A' <= s[i] <= 'Z' then (s[i] as int + 32) as char else s[i])
  }

  predicate OccursAt(s: string, i: nat, part: string) {
    i + |part| <= |s| && s[i..i + |part|] == part
  }

  predicate Contains(s: string, part: string) {
    exists i: nat | i <= |s| :: OccursAt(s, i, part)
  }

  /** The words of a phrase such as "by 5%", which begins at `i`. */
  predicate DeltaAt(s: string, i: nat) {
    && i + 2 < |s| && (i == 0 || !IsWord(s[i - 1])) && OccursAt(Lower(s), i, "by")
    && var j := RunEnd(s, i + 2, IsSpace);
       i + 2 < j < |s| && IsDigit(s[j]) && PercentFollows(s, NumeralEnd(s, j))
  }

  predicate HasDelta(s: string) {
    exists i | 0 <= i < |s| :: DeltaAt(s, i)
  }

  predicate HasDirectionalVerb(s: string) {
    exists verb | verb in DIRECTIONAL_VERBS :: Contains(Lower(s), verb)
  }

  predicate WordFollows(s: string, j: nat, words: seq<string>)
    requires j <= |s|
  {
    var e := RunEnd(s, j, IsSpaceOrHyphen);
    exists u | u in words ::
      OccursAt(Lower(s), e, u) && (e + |u| == |s| || !IsWord(s[e + |u|]))
  }

  predicate TimeUnitFollows(s: string, j: nat)
    requires j <= |s|
  {
    WordFollows(s, j, TIME_UNITS)
  }

  function WithoutCommas(s: string): string {
    if s == "" then "" else (if s[0] == ',' then "" else [s[0]]) + WithoutCommas(s[1..])
  }

  function Whole(digits: string): real {
    if digits == "" then 0.0
    else Whole(digits[..|digits| - 1]) * 10.0 + (digits[|digits| - 1] as int - '0' as int) as real
  }

  function TenTo(n: nat): (p: real)
    ensures p > 0.0
  {
    if n == 0 then 1.0 else 10.0 * TenTo(n - 1)
  }

  /** The value of a numeral without its commas. */
  function ValueOf(raw: string): real {
    var point := RunEnd(raw, 0, IsDigit);
    Whole(raw[..point])
    + if point < |raw| then Whole(raw[point + 1..]) / TenTo(|raw| - point - 1) else 0.0
  }

  function Text(s: string, sp: Span): string {
    if sp.start <= sp.end <= |s| then s[sp.start..sp.end] else ""
  }

  function Raw(s: string, sp: Span): string {
    WithoutCommas(Text(s, sp))
  }

  predicate AllDigits(raw: string) {
    raw != "" && forall c | c in raw :: IsDigit(c)
  }

  predicate AcceptedPercentage(s: string, sp: Span, known: map<string, real>) {
    var value := ValueOf(Raw(s, sp));
    WithinPct(value, known) || (value <= MAX_TARGET_DELTA_PCT && HasDelta(s) && HasDirectionalVerb(s))
  }

  predicate AcceptedFigure(s: string, sp: Span, known: map<string, real>) {
    var raw := Raw(s, sp);
    || (sp.end <= |s| && TimeUnitFollows(s, sp.end))
    || (AllDigits(raw) && 1.0 <= ValueOf(raw) <= 12.0)
    || exists name | name in known :: Abs(ValueOf(raw) - known[name]) <= Tolerance(known[name])
  }

  /** What the verdict asks of one text: every judged numeral is in a class its scanner accepts. */
  predicate Supported(s: string, known: map<string, real>) {
    && (forall q | q in Percentages(s, 0) :: AcceptedPercentage(s, q, known))
    && forall sp | sp in Unskipped(Numerals(s, 0), Percentages(s, 0)) :: AcceptedFigure(s, sp, known)
  }

  /**
   * A text is supported if and only if each of its plain numerals is accepted, as a percentage when it is one and
   * as a figure otherwise, and so are the percentages that are only the tail of a pointed group.
   */
  lemma SupportedNumerals(s: string, known: map<string, real>)
    ensures Supported(s, known)
            <==> (forall sp | sp in Numerals(s, 0) ::
                    if sp in Percentages(s, 0) then AcceptedPercentage(s, sp, known) else AcceptedFigure(s, sp, known))
                 && (forall q | q in Percentages(s, 0) && q !in Numerals(s, 0) :: AcceptedPercentage(s, q, known))
  {
    hide Numerals, Percentages, Unskipped, Skipped, AcceptedFigure, AcceptedPercentage, Separated, NumeralEnd;
    NumeralsSpan(s, 0);
    UnskippedMembers(Numerals(s, 0), Percentages(s, 0));
    forall sp | sp in Numerals(s, 0)
      ensures Skipped(sp, Percentages(s, 0)) <==> sp in Percentages(s, 0)
    {
      SkippedIsPercentage(s, sp);
    }
  }

  /** In a supported text every digit is part of a number that the context, or a closed class, accounts for. */
  lemma SupportedDigits(s: string, known: map<string, real>, k: nat)
    requires Supported(s, known) && k < |s| && IsDigit(s[k])
    ensures exists sp | sp in Numerals(s, 0) ::
              sp.Has(k)
              && if sp in Percentages(s, 0) then AcceptedPercentage(s, sp, known) else AcceptedFigure(s, sp, known)
  {
    hide Numerals, Percentages, Supported, AcceptedFigure, AcceptedPercentage;
    SupportedNumerals(s, known);
    NumeralsCover(s, 0, k);
  }

  // ---------- Where the classes differ from the header's account of them ----------

  /** A plain numeral before a percent sign is judged as a percentage exactly if no point stands before it. */
  lemma PercentageUnlessPointed(s: string, sp: Span)
    requires sp in Numerals(s, 0)
    ensures sp.start < sp.end <= |s|
    ensures PercentFollows(s, sp.end) ==> (sp in Percentages(s, 0) <==> sp.start == 0 || s[sp.start - 1] != '.')
  {
    hide Numerals, Percentages, Separated;
    NumeralsSpan(s, 0);
    NumeralsStartFresh(s, 0);
    PercentagesSpan(s, 0);
    if PercentFollows(s, sp.end) && (sp.start == 0 || s[sp.start - 1] != '.') {
      PercentagesComplete(s, 0, sp.start);
      var q :| q in Percentages(s, 0) && q.start <= sp.start && q.end == NumeralEnd(s, sp.start);
      hide NumeralEnd, PercentFollows;
      var outer := PercentageEndsNumeral(s, q);
      SeparatedSame(Numerals(s, 0), sp, outer, sp.start);
      assert q == sp;
    }
  }

  /** So a small integer attached to a percent sign can pass as an item count: this text does, with nothing known. */
  lemma PointedCountPasses()
    ensures Supported(".5%", map[])
  {
    var s := ".5%";
    assert RunEnd(s, 1, IsGrouped) == 2 && NumeralEnd(s, 1) == 2;
    assert Numerals(s, 2) == Numerals(s, 3) == [];
    assert Numerals(s, 0) == Numerals(s, 1) == [Span(1, 2)];
    assert Percentages(s, 0) == Percentages(s, 1) == Percentages(s, 2) == Percentages(s, 3) == [];
    assert Unskipped([Span(1, 2)], []) == [Span(1, 2)];
    hide Numerals, Percentages, Unskipped, RunEnd, NumeralEnd;
    FiveIsSmall(s, Span(1, 2));
  }

  lemma FiveIsSmall(s: string, sp: Span)
    requires Text(s, sp) == "5"
    ensures Raw(s, sp) == "5" && AllDigits("5") && ValueOf("5") == 5.0
    ensures forall known :: AcceptedFigure(s, sp, known)
  {
    var five := "5";
    assert five[1..] == "" && five[..0] == "" && five[..1] == five;
    assert WithoutCommas(five[1..]) == "";
    assert RunEnd(five, 0, IsDigit) == 1;
    assert Whole(five[..0]) == 0.0;
  }

  /** A directional verb that ends before `i`. */
  predicate VerbBefore(s: string, i: nat) {
    exists verb, k: nat | verb in DIRECTIONAL_VERBS && k <= i ::
      k + |verb| <= i && OccursAt(Lower(s), k, verb)
  }

  /** The header's small directional delta: a verb, and then "by" directly before this percentage. */
  predicate Introduced(s: string, q: Span) {
    exists i | 0 <= i < |s| :: DeltaAt(s, i) && RunEnd(s, i + 2, IsSpace) == q.start && VerbBefore(s, i)
  }

  predicate AcceptedByHeader(s: string, q: Span, known: map<string, real>) {
    var value := ValueOf(Raw(s, q));
    WithinPct(value, known) || (value <= MAX_TARGET_DELTA_PCT && Introduced(s, q))
  }

  lemma IntroducedHasBoth(s: string, q: Span)
    requires Introduced(s, q)
    ensures HasDelta(s) && HasDirectionalVerb(s)
  {
    hide DeltaAt;
    var i: nat :| i < |s| && DeltaAt(s, i) && VerbBefore(s, i);
    VerbOccurs(s, i);
  }

  lemma VerbOccurs(s: string, i: nat)
    requires VerbBefore(s, i) && i <= |s|
    ensures HasDirectionalVerb(s)
  {
    hide OccursAt, Lower;
    LowerLength(s);
    var verb: string, k: nat :| verb in DIRECTIONAL_VERBS && k <= i && (k + |verb| <= i && OccursAt(Lower(s), k, verb));
    assert Contains(Lower(s), verb);
  }

  lemma LowerLength(s: string)
    ensures |Lower(s)| == |s|
  {}

  /**
   * The code accepts the same percentages of a text as the header does if and only if, should the text hold a verb
   * and a "by" phrase anywhere, each small percentage that the context does not know is itself such a delta.
   */
  lemma DeltaRuleExactly(s: string, known: map<string, real>)
    ensures (forall q | q in Percentages(s, 0) :: AcceptedPercentage(s, q, known) <==> AcceptedByHeader(s, q, known))
            <==> (HasDelta(s) && HasDirectionalVerb(s) ==>
                    forall q | q in Percentages(s, 0) ::
                      ValueOf(Raw(s, q)) <= MAX_TARGET_DELTA_PCT && !WithinPct(ValueOf(Raw(s, q)), known) ==>
                          Introduced(s, q))
  {
    hide Percentages, HasDelta, HasDirectionalVerb, Introduced, ValueOf, Raw, WithinPct;
    forall q | Introduced(s, q) {
      IntroducedHasBoth(s, q);
    }
  }

  /** A goal passes on another number's "by" phrase: this text does, with nothing known, its 9% no delta at all. */
  lemma GoalPassesByDelta()
    ensures var s := "lift to 9% by 5%";
            && Span(8, 9) in Percentages(s, 0) && Supported(s, map[]) && !AcceptedByHeader(s, Span(8, 9), map[])
  {
    var s := "lift to 9% by 5%";
    hide Percentages, Numerals, HasDelta, HasDirectionalVerb, Introduced, ValueOf, Raw, Supported;
    GoalSpans();
    GoalPhrase();
    OneDigitSmall(s, Span(8, 9));
    OneDigitSmall(s, Span(14, 15));
    SupportedNumerals(s, map[]);
  }

  lemma GoalSpans()
    ensures var s := "lift to 9% by 5%";
            Percentages(s, 0) == Numerals(s, 0) == [Span(8, 9), Span(14, 15)]
  {
    var s := "lift to 9% by 5%";
    assert RunEnd(s, 8, IsGrouped) == 9 && NumeralEnd(s, 8) == 9 && RunEnd(s, 9, IsSpace) == 9;
    assert RunEnd(s, 14, IsGrouped) == 15 && NumeralEnd(s, 14) == 15 && RunEnd(s, 15, IsSpace) == 15;
    NoDigits(s, 16, 16);
    NoDigits(s, 15, 16);
    NoDigits(s, 9, 14);
    NoDigits(s, 10, 14);
    NoDigits(s, 0, 8);
  }

  /** Where there is no digit neither scanner finds anything. */
  lemma {:induction false} NoDigits(s: string, p: nat, until: nat)
    requires p <= until <= |s| && forall k | p <= k < until :: !IsDigit(s[k])
    ensures Percentages(s, p) == Percentages(s, until) && Numerals(s, p) == Numerals(s, until)
    decreases |s| - p
  {
    if p < until {
      NoDigits(s, p + 1, until);
    }
  }

  lemma GoalPhrase()
    ensures var s := "lift to 9% by 5%";
            HasDelta(s) && HasDirectionalVerb(s) && !Introduced(s, Span(8, 9))
  {
    var s := "lift to 9% by 5%";
    GoalDelta();
    GoalVerb();
    hide HasDelta, HasDirectionalVerb, VerbBefore, RunEnd, NumeralEnd, PercentFollows;
    forall i: nat | i < |s|
      ensures !(DeltaAt(s, i) && RunEnd(s, i + 2, IsSpace) == 8)
    {
      NoPhraseBefore(s, i, 8);
    }
  }

  lemma GoalVerb()
    ensures HasDirectionalVerb("lift to 9% by 5%")
  {
    var s := "lift to 9% by 5%";
    LowerIsLower(s);
    hide Lower;
    assert OccursAt(s, 0, "lift");
    assert Contains(s, "lift");
    assert DIRECTIONAL_VERBS[3] == "lift";
  }

  lemma LowerIsLower(s: string)
    requires forall c | c in s :: !('A' <= c <= 'Z')
    ensures Lower(s) == s
  {
    assert forall i | 0 <= i < |s| :: s[i] in s;
  }

  lemma GoalDelta()
    ensures HasDelta("lift to 9% by 5%")
  {
    var s := "lift to 9% by 5%";
    LowerIsLower(s);
    hide Lower;
    assert RunEnd(s, 13, IsSpace) == 14 && NumeralEnd(s, 14) == 15 && RunEnd(s, 15, IsSpace) == 15;
    assert OccursAt(s, 11, "by");
    assert DeltaAt(s, 11);
  }

  /** A "by" phrase that ends right before `g` has its "b" three places before, if one space separates the two. */
  lemma NoPhraseBefore(s: string, i: nat, g: nat)
    requires 3 <= g <= |s| && !IsSpace(s[g - 2]) && s[g - 3] != 'b' && s[g - 3] != 'B'
    ensures !(DeltaAt(s, i) && RunEnd(s, i + 2, IsSpace) == g)
  {
    hide RunEnd, PercentFollows, NumeralEnd, OccursAt, Lower;
    if DeltaAt(s, i) {
      ByBegins(s, i);
      assert RunEnd(s, i + 2, IsSpace) == g ==> g - 2 < i + 2 && i == g - 3;
    }
  }

  lemma ByBegins(s: string, i: nat)
    requires OccursAt(Lower(s), i, "by")
    ensures i < |s| && (s[i] == 'b' || s[i] == 'B')
  {
    assert Lower(s)[i] == Lower(s)[i..i + 2][0];
  }

  lemma OneDigitSmall(s: string, sp: Span)
    requires sp.start < |s| && sp.end == sp.start + 1 && IsDigit(s[sp.start])
    ensures 0.0 <= ValueOf(Raw(s, sp)) <= 9.0
  {
    var one := [s[sp.start]];
    assert Text(s, sp) == one && one[1..] == "" && one[..0] == "" && one[..1] == one;
    assert WithoutCommas(one[1..]) == "" && WithoutCommas(one) == one;
    assert RunEnd(one, 0, IsDigit) == 1;
    assert Whole(one[..0]) == 0.0;
  }

  // ---------- The verdict ----------

  datatype Note = UnverifiedStatistic(value: real) | UnverifiedFigure(text: string) | AllVerified

  function StatisticNotes(s: string, spans: seq<Span>, known: map<string, real>): seq<Note> {
    if spans == [] then []
    else
      var last := spans[|spans| - 1];
      StatisticNotes(s, spans[..|spans| - 1], known)
      + (if AcceptedPercentage(s, last, known) then [] else [UnverifiedStatistic(ValueOf(Raw(s, last)))])
  }

  function FigureNotes(s: string, spans: seq<Span>, known: map<string, real>): seq<Note> {
    if spans == [] then []
    else
      var last := spans[|spans| - 1];
      FigureNotes(s, spans[..|spans| - 1], known)
      + (if AcceptedFigure(s, last, known) then [] else [UnverifiedFigure(Text(s, last))])
  }

  lemma LastOrBefore<T>(items: seq<T>)
    requires items != []
    ensures forall x :: x in items <==> x in items[..|items| - 1] || x == items[|items| - 1]
  {
    assert items == items[..|items| - 1] + [items[|items| - 1]];
  }

  lemma {:induction false} NoStatisticNotes(s: string, spans: seq<Span>, known: map<string, real>)
    ensures StatisticNotes(s, spans, known) == [] <==> forall q | q in spans :: AcceptedPercentage(s, q, known)
  {
    if spans != [] {
      var n := |spans| - 1;
      LastOrBefore(spans);
      NoStatisticNotes(s, spans[..n], known);
    }
  }

  lemma {:induction false} NoFigureNotes(s: string, spans: seq<Span>, known: map<string, real>)
    ensures FigureNotes(s, spans, known) == [] <==> forall sp | sp in spans :: AcceptedFigure(s, sp, known)
  {
    if spans != [] {
      var n := |spans| - 1;
      hide AcceptedFigure;
      LastOrBefore(spans);
      NoFigureNotes(s, spans[..n], known);
    }
  }

  lemma {:induction false} UnskippedMore(numerals: seq<Span>, sp: Span, percentages: seq<Span>)
    ensures Unskipped(numerals + [sp], percentages)
            == if Skipped(sp, percentages) then Unskipped(numerals, percentages)
               else Unskipped(numerals, percentages) + [sp]
  {
    if numerals != [] {
      hide Skipped;
      UnskippedMore(numerals[1..], sp, percentages);
      assert (numerals + [sp])[1..] == numerals[1..] + [sp];
    }
  }

  /** What one text adds to the notes. */
  function NotesOf(s: string, known: map<string, real>): seq<Note> {
    StatisticNotes(s, Percentages(s, 0), known) + FigureNotes(s, Unskipped(Numerals(s, 0), Percentages(s, 0)), known)
  }

  lemma NoNotesSupported(s: string, known: map<string, real>)
    ensures NotesOf(s, known) == [] <==> Supported(s, known)
  {
    hide Numerals, Percentages, Unskipped, AcceptedFigure, AcceptedPercentage, FigureNotes, StatisticNotes;
    NoStatisticNotes(s, Percentages(s, 0), known);
    NoFigureNotes(s, Unskipped(Numerals(s, 0), Percentages(s, 0)), known);
  }

  function AllNotes(recommendations: seq<string>, known: map<string, real>): seq<Note> {
    if recommendations == [] then []
    else
      AllNotes(recommendations[..|recommendations| - 1], known)
      + NotesOf(recommendations[|recommendations| - 1], known)
  }

  lemma {:induction false} NoNotes(recommendations: seq<string>, known: map<string, real>)
    ensures AllNotes(recommendations, known) == []
            <==> forall rec | rec in recommendations :: Supported(rec, known)
  {
    if recommendations != [] {
      hide Supported, NotesOf;
      var n := |recommendations| - 1;
      LastOrBefore(recommendations);
      NoNotes(recommendations[..n], known);
      NoNotesSupported(recommendations[n], known);
    }
  }

  lemma StatisticNotesMore(s: string, spans: seq<Span>, sp: Span, known: map<string, real>)
    ensures StatisticNotes(s, spans + [sp], known)
            == if AcceptedPercentage(s, sp, known) then StatisticNotes(s, spans, known)
               else StatisticNotes(s, spans, known) + [UnverifiedStatistic(ValueOf(Raw(s, sp)))]
  {
    assert (spans + [sp])[..|spans|] == spans;
  }

  method JudgePercentages(rec: string, known: map<string, real>) returns (spans: seq<Span>, notes: seq<Note>)
    ensures spans == Percentages(rec, 0) && notes == StatisticNotes(rec, spans, known)
  {
    var matches := Percentages(rec, 0);
    spans, notes := [], [];
    assert notes == StatisticNotes(rec, matches[..0], known);
    hide *;
    for i := 0 to |matches|
      invariant spans == matches[..i]
      invariant notes == StatisticNotes(rec, matches[..i], known)
    {
      assert matches[..i + 1] == matches[..i] + [matches[i]];
      StatisticNotesMore(rec, matches[..i], matches[i], known);
      spans := spans + [matches[i]];
      if !AcceptedPercentage(rec, matches[i], known) {
        notes := notes + [UnverifiedStatistic(ValueOf(Raw(rec, matches[i])))];
      }
    }
  }

  lemma FigureNotesMore(s: string, spans: seq<Span>, sp: Span, known: map<string, real>)
    ensures FigureNotes(s, spans + [sp], known)
            == if AcceptedFigure(s, sp, known) then FigureNotes(s, spans, known)
               else FigureNotes(s, spans, known) + [UnverifiedFigure(Text(s, sp))]
  {
    assert (spans + [sp])[..|spans|] == spans;
  }

  /** One more plain numeral adds a note unless it is skipped or accepted. */
  lemma FiguresMore(s: string, numerals: seq<Span>, i: nat, percentages: seq<Span>, known: map<string, real>)
    requires i < |numerals|
    ensures FigureNotes(s, Unskipped(numerals[..i + 1], percentages), known)
            == var before := FigureNotes(s, Unskipped(numerals[..i], percentages), known);
               if Skipped(numerals[i], percentages) || AcceptedFigure(s, numerals[i], known) then before
               else before + [UnverifiedFigure(Text(s, numerals[i]))]
  {
    hide *;
    assert numerals[..i + 1] == numerals[..i] + [numerals[i]];
    UnskippedMore(numerals[..i], numerals[i], percentages);
    FigureNotesMore(s, Unskipped(numerals[..i], percentages), numerals[i], known);
  }

  /** The three ways a plain numeral is accepted, in the order they are tried. */
  method JudgeFigure(rec: string, sp: Span, known: map<string, real>) returns (accepted: bool)
    ensures accepted == AcceptedFigure(rec, sp, known)
  {
    hide TimeUnitFollows, ValueOf, Raw;
    var raw := Raw(rec, sp);
    var value := ValueOf(raw);
    if sp.end <= |rec| && TimeUnitFollows(rec, sp.end) {
      return true;
    }
    if AllDigits(raw) && 1.0 <= value <= 12.0 {
      return true;
    }
    accepted := WithinAbs(value, known);
  }

  method JudgeFigures(rec: string, percentages: seq<Span>, known: map<string, real>) returns (notes: seq<Note>)
    requires percentages == Percentages(rec, 0)
    ensures notes == FigureNotes(rec, Unskipped(Numerals(rec, 0), percentages), known)
  {
    var matches := Numerals(rec, 0);
    notes := [];
    assert notes == FigureNotes(rec, Unskipped(matches[..0], percentages), known);
    hide *;
    for i := 0 to |matches|
      invariant notes == FigureNotes(rec, Unskipped(matches[..i], percentages), known)
    {
      FiguresMore(rec, matches, i, percentages, known);
      if !Skipped(matches[i], percentages) {
        var accepted := JudgeFigure(rec, matches[i], known);
        if !accepted {
          notes := notes + [UnverifiedFigure(Text(rec, matches[i]))];
        }
      }
    }
    assert matches[..|matches|] == matches;
  }

  /** verify_grounding: grounded exactly when every text is supported by the numbers of the context. */
  method VerifyGrounding(recommendations: seq<string>, context: Context) returns (grounded: bool, notes: seq<Note>)
    ensures grounded <==> forall rec | rec in recommendations :: Supported(rec, Stored(ContextNumbers(context)))
    ensures notes == if grounded then [AllVerified] else AllNotes(recommendations, Stored(ContextNumbers(context)))
  {
    var known := ExtractContextNumbers(context);
    grounded, notes := true, [];
    for i := 0 to |recommendations|
      invariant notes == AllNotes(recommendations[..i], known)
      invariant grounded <==> notes == []
    {
      var rec := recommendations[i];
      assert recommendations[..i + 1][..i] == recommendations[..i];
      var percentages, statistics := JudgePercentages(rec, known);
      var figures := JudgeFigures(rec, percentages, known);
      if |statistics + figures| > 0 {
        grounded := false;
      }
      notes := notes + (statistics + figures);
    }
    assert recommendations[..|recommendations|] == recommendations;
    NoNotes(recommendations, known);
    if notes == [] {
      notes := [AllVerified];
    }
  }
}
