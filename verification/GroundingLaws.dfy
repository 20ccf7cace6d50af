/**
 * What the grounding guard's numbers and words amount to: the value of a numeral, the words and phrases it looks for,
 * and from these what happens to a number that stands alone in a text.
 */
module GroundingLaws {
  import opened Types
  import opened Decay
  import opened Grounding

  // ---------- What a numeral is worth ----------

  lemma {:induction false} DigitsAreDigits(n: nat)
    ensures AllDigits(Digits(n))
  {
    if n >= 10 {
      DigitsAreDigits(n / 10);
    }
  }

  lemma {:induction false} WholeOfDigits(n: nat)
    ensures Whole(Digits(n)) == n as real
  {
    var text := Digits(n);
    var init, last := text[..|text| - 1], text[|text| - 1];
    assert last as int - '0' as int == n % 10;
    if n >= 10 {
      WholeOfDigits(n / 10);
      assert init == Digits(n / 10);
      assert (n / 10) as real * 10.0 + (n % 10) as real == n as real;
    }
  }

  lemma ValueOfWhole(raw: string)
    requires AllDigits(raw)
    ensures ValueOf(raw) == Whole(raw)
  {
    RunEndUnique(raw, 0, |raw|, IsDigit);
    assert raw[..|raw|] == raw;
  }

  /** The decimal digits of a number are worth the number. */
  lemma ValueOfDigits(n: nat)
    ensures ValueOf(Digits(n)) == n as real
  {
    DigitsAreDigits(n);
    ValueOfWhole(Digits(n));
    WholeOfDigits(n);
  }

  lemma WithoutCommasCons(c: char, s: string)
    ensures WithoutCommas([c] + s) == if c == ',' then WithoutCommas(s) else [c] + WithoutCommas(s)
  {
    assert ([c] + s)[1..] == s;
  }

  lemma {:induction false} WithoutCommasConcat(a: string, b: string)
    ensures WithoutCommas(a + b) == WithoutCommas(a) + WithoutCommas(b)
  {
    if a == "" {
      assert a + b == b && WithoutCommas(a) == "";
    } else {
      hide WithoutCommas;
      var x, rest := a[0], a[1..];
      WithoutCommasConcat(rest, b);
      assert a == [x] + rest && a + b == [x] + (rest + b);
      WithoutCommasCons(x, rest + b);
      WithoutCommasCons(x, rest);
      Regrouped([x], WithoutCommas(rest), WithoutCommas(b));
    }
  }

  lemma Regrouped(a: string, b: string, c: string)
    ensures a + (b + c) == (a + b) + c
  {}

  /** A comma anywhere changes nothing, and nothing else is taken out. */
  lemma CommasDoNotCount(a: string, b: string)
    ensures WithoutCommas(a + "," + b) == WithoutCommas(a + b)
    ensures (forall c | c in a :: c != ',') ==> WithoutCommas(a) == a
  {
    WithoutCommasConcat(a + ",", b);
    WithoutCommasConcat(a, ",");
    WithoutCommasConcat(a, b);
    if forall c | c in a :: c != ',' {
      NoCommas(a);
    }
  }

  lemma {:induction false} NoCommas(a: string)
    requires forall c | c in a :: c != ','
    ensures WithoutCommas(a) == a
  {
    if a != "" {
      assert a[0] in a && forall c | c in a[1..] :: c in a;
      NoCommas(a[1..]);
      assert a == [a[0]] + a[1..];
    }
  }

  function Zeros(z: nat): string {
    if z == 0 then "" else Zeros(z - 1) + "0"
  }

  lemma {:induction false} LeadingZeros(zeros: string, digits: string)
    requires Whole(zeros) == 0.0
    ensures Whole(zeros + digits) == Whole(digits)
  {
    if digits == "" {
      assert zeros + digits == zeros;
    } else {
      var n := |digits| - 1;
      LeadingZeros(zeros, digits[..n]);
      assert (zeros + digits)[..|zeros| + n] == zeros + digits[..n];
    }
  }

  lemma WholeOfPadded(z: nat, n: nat)
    ensures Whole(Zeros(z) + Digits(n)) == n as real && |Zeros(z)| == z && (forall c | c in Zeros(z) :: c == '0')
  {
    hide Whole, Digits, Zeros;
    WholeOfZeros(z);
    WholeOfDigits(n);
    LeadingZeros(Zeros(z), Digits(n));
  }

  lemma {:induction false} WholeOfZeros(z: nat)
    ensures Whole(Zeros(z)) == 0.0 && |Zeros(z)| == z && (forall c | c in Zeros(z) :: c == '0')
  {
    if z != 0 {
      WholeOfZeros(z - 1);
      assert Zeros(z)[..|Zeros(z)| - 1] == Zeros(z - 1);
    }
  }

  lemma {:induction false} TenToIsPower(m: nat)
    ensures TenTo(m) == Pow(10.0, m)
  {
    if m != 0 {
      TenToIsPower(m - 1);
    }
  }

  lemma ValueAroundPoint(raw: string, n: nat)
    requires n < |raw| && AllDigits(raw[..n]) && raw[n] == '.'
    ensures ValueOf(raw) == Whole(raw[..n]) + Whole(raw[n + 1..]) / TenTo(|raw| - n - 1)
  {
    DigitsThenPoint(raw, n);
    hide Whole, TenTo, RunEnd, AllDigits;
  }

  lemma JoinedParts(a: string, b: string)
    ensures var s := a + "." + b;
            |s| == |a| + 1 + |b| && s[..|a|] == a && s[|a|] == '.' && s[|a| + 1..] == b
  {}

  lemma ValueOfParts(whole: string, rest: string)
    requires AllDigits(whole)
    ensures ValueOf(whole + "." + rest) == Whole(whole) + Whole(rest) / TenTo(|rest|)
  {
    hide *;
    var raw := whole + "." + rest;
    JoinedParts(whole, rest);
    ValueAroundPoint(raw, |whole|);
  }

  lemma DigitsThenPoint(raw: string, n: nat)
    requires n < |raw| && AllDigits(raw[..n]) && raw[n] == '.'
    ensures RunEnd(raw, 0, IsDigit) == n
  {
    assert forall k | 0 <= k < n :: raw[k] == raw[..n][k] && raw[..n][k] in raw[..n];
    RunEndUnique(raw, 0, n, IsDigit);
  }

  /** Behind a point, m digits are worth their number divided by ten to the power of m, leading zeros included. */
  lemma ValueOfFraction(w: nat, z: nat, n: nat)
    ensures ValueOf(Digits(w) + "." + (Zeros(z) + Digits(n))) == w as real + n as real / Pow(10.0, z + |Digits(n)|)
  {
    hide Whole, Digits, Pow, TenTo, Zeros, ValueOf;
    DigitsAreDigits(w);
    ValueOfParts(Digits(w), Zeros(z) + Digits(n));
    WholeOfDigits(w);
    WholeOfPadded(z, n);
    TenToIsPower(z + |Digits(n)|);
  }

  // ---------- Characters ----------

  /** The character classes, over the printable characters and the white space of ASCII. */
  lemma Characters(c: char)
    requires ' ' <= c <= '~'
    ensures IsDigit(c) <==> c in "0123456789"
    ensures IsSpace(c) <==> c == ' '
    ensures IsWord(c) ==> !IsSpaceOrHyphen(c) && c != '%' && c != '.' && c != ',' && c != '$'
    ensures IsWord('a') && IsWord('z') && IsWord('A') && IsWord('Z') && IsWord('0') && IsWord('9') && IsWord('_')
    ensures !IsWord('@') && !IsWord('[') && !IsWord('`') && !IsWord('{') && !IsWord('/') && !IsWord(':')
    ensures IsSpace('\t') && IsSpace('\n') && IsSpace('\r')
  {
    DigitChars(c);
  }

  lemma DigitChars(c: char)
    ensures IsDigit(c) <==> c in "0123456789"
  {
    var all := "0123456789";
    if IsDigit(c) {
      assert all[c as int - 48] == c;
    }
  }

  // ---------- The words and signs, as the patterns have them ----------

  predicate SameLetter(c: char, lower: char) {
    if 'A' <= c <= 'Z' then c as int + 32 == lower as int else c == lower
  }

  /** The text reads `word` at `i`, whatever the case. */
  predicate ReadsAt(s: string, i: nat, word: string) {
    i + |word| <= |s| && forall k | 0 <= k < |word| :: SameLetter(s[i + k], word[k])
  }

  lemma ReadsExactly(s: string, i: nat, word: string)
    ensures OccursAt(Lower(s), i, word) <==> ReadsAt(s, i, word)
  {
    LowerLength(s);
    if i + |word| <= |s| {
      var part := Lower(s)[i..i + |word|];
      assert forall k | 0 <= k < |word| :: part[k] == word[k] <==> SameLetter(s[i + k], word[k]);
      if ReadsAt(s, i, word) {
        assert part == word;
      }
    }
  }

  /** From `j` on only spaces and hyphens up to `e`, there one of the words, and then no word character. */
  ghost predicate WordAt(s: string, j: nat, words: seq<string>, e: nat, word: string) {
    && j <= e <= |s| && (forall k | j <= k < e :: IsSpace(s[k]) || s[k] == '-')
    && (e < |s| ==> !IsSpace(s[e]) && s[e] != '-')
    && word in words && ReadsAt(s, e, word) && (e + |word| == |s| || !IsWord(s[e + |word|]))
  }

  lemma WordExactly(s: string, j: nat, words: seq<string>)
    requires j <= |s|
    ensures WordFollows(s, j, words) <==> exists e: nat, word: string :: WordAt(s, j, words, e, word)
  {
    if WordFollows(s, j, words) {
      var end := RunEnd(s, j, IsSpaceOrHyphen);
      hide OccursAt, Lower, RunEnd;
      var word :| word in words && OccursAt(Lower(s), end, word)
                  && (end + |word| == |s| || !IsWord(s[end + |word|]));
      ReadsExactly(s, end, word);
      hide ReadsAt;
      assert WordAt(s, j, words, end, word);
    }
    if e: nat, word: string :| WordAt(s, j, words, e, word) {
      WordAtFollows(s, j, words, e, word);
    }
  }

  lemma WordAtFollows(s: string, j: nat, words: seq<string>, e: nat, word: string)
    requires WordAt(s, j, words, e, word)
    ensures WordFollows(s, j, words)
  {
    RunEndUnique(s, j, e, IsSpaceOrHyphen);
    ReadsExactly(s, e, word);
    hide OccursAt, Lower, ReadsAt, RunEnd;
  }

  /** The fourteen time units. */
  lemma TimeUnitExactly(s: string, j: nat)
    requires j <= |s|
    ensures var units := ["day", "days", "week", "weeks", "hour", "hours", "month", "months", "year", "years",
                          "minute", "minutes", "second", "seconds"];
            TimeUnitFollows(s, j) <==> exists e: nat, unit: string :: WordAt(s, j, units, e, unit)
  {
    WordExactly(s, j, TIME_UNITS);
    hide WordFollows, WordAt;
  }

  /** A directional verb is in the text: one of the sixteen, anywhere, also inside a longer word. */
  lemma DirectionalVerbExactly(s: string)
    ensures HasDirectionalVerb(s)
            <==> exists i: nat, verb: string | i <= |s| ::
                   && verb in ["increase", "boost", "raise", "lift", "grow", "improve", "uplift", "gain", "reduce",
                               "decrease", "lower", "drop", "cut", "double", "triple", "halve"]
                   && ReadsAt(s, i, verb)
  {
    LowerLength(s);
    forall i: nat, verb: string | i <= |s|
      ensures OccursAt(Lower(s), i, verb) <==> ReadsAt(s, i, verb)
    {
      ReadsExactly(s, i, verb);
    }
    hide OccursAt, Lower, ReadsAt;
    forall verb | verb in DIRECTIONAL_VERBS
      ensures Contains(Lower(s), verb) <==> exists i: nat | i <= |s| :: ReadsAt(s, i, verb)
    {
      if i: nat :| i <= |s| && ReadsAt(s, i, verb) {
        assert OccursAt(Lower(s), i, verb);
      }
    }
  }

  /** The by-phrase at `i`: the word, spaces, a numeral up to `j`, spaces, and a percent sign before `e`. */
  ghost predicate PhraseAt(s: string, i: nat, g: nat, j: nat, e: nat) {
    && i + 2 < g <= |s| && (i == 0 || !IsWord(s[i - 1])) && ReadsAt(s, i, "by")
    && (forall k | i + 2 <= k < g :: IsSpace(s[k])) && MatchesPercent(s, g, j, e)
  }

  lemma DeltaExactly(s: string, i: nat)
    ensures DeltaAt(s, i) <==> exists g: nat, j: nat, e: nat :: PhraseAt(s, i, g, j, e)
  {
    ReadsExactly(s, i, "by");
    hide OccursAt, Lower, ReadsAt, NumeralEnd, PercentFollows, MatchesPercent;
    if DeltaAt(s, i) {
      var g := RunEnd(s, i + 2, IsSpace);
      assert IsSpace(s[g - 1]);
      PercentMatchUnique(s, g, NumeralEnd(s, g), AfterPercent(s, g));
      assert PhraseAt(s, i, g, NumeralEnd(s, g), AfterPercent(s, g));
    }
    if g: nat, j: nat, e: nat :| PhraseAt(s, i, g, j, e) {
      PercentMatchUnique(s, g, j, e);
      assert !IsSpace(s[g]);
      RunEndUnique(s, i + 2, g, IsSpace);
    }
  }

  // ---------- Numbers that stand alone ----------

  /** Neither a digit, nor a comma, nor a point. */
  predicate Apart(c: char) {
    !IsDigit(c) && c != ',' && c != '.'
  }

  /** The number `n` in its digits, with nothing of a numeral right before or behind it. */
  predicate StandsAlone(s: string, before: string, n: nat, behind: string) {
    && s == before + Digits(n) + behind
    && (before != "" ==> Apart(before[|before| - 1])) && (behind != "" ==> Apart(behind[0]))
  }

  function PlaceOf(before: string, n: nat): Span {
    Span(|before|, |before| + |Digits(n)|)
  }

  lemma NumeralChars(s: string, c: nat, k: nat)
    requires c < |s| && IsDigit(s[c]) && c <= k < NumeralEnd(s, c)
    ensures !Apart(s[k])
  {
    var m := RunEnd(s, c, IsGrouped);
    if m < k {
      assert IsDigit(s[k]);
    }
  }

  lemma LoneText(s: string, before: string, n: nat, behind: string)
    requires StandsAlone(s, before, n, behind)
    ensures var sp := PlaceOf(before, n);
            && sp.start < sp.end <= |s| && Text(s, sp) == Digits(n) == Raw(s, sp)
            && IsDigit(s[sp.start]) && NumeralEnd(s, sp.start) == sp.end
            && (sp.start > 0 ==> Apart(s[sp.start - 1]))
  {
    var sp, text := PlaceOf(before, n), Digits(n);
    DigitsAreDigits(n);
    assert forall k | 0 <= k < |text| :: s[sp.start + k] == text[k] && text[k] in text;
    assert forall k | sp.start <= k < sp.end :: s[k] == text[k - sp.start];
    assert s[sp.start..sp.end] == text;
    assert sp.end < |s| ==> s[sp.end] == behind[0];
    RunEndUnique(s, sp.start, sp.end, IsGrouped);
    NoCommas(text);
    hide Digits, RunEnd, WithoutCommas;
  }

  /** Where a digit stands behind nothing of a numeral, a plain numeral begins. */
  lemma FreshNumeral(s: string, g: nat)
    requires g < |s| && IsDigit(s[g]) && (g > 0 ==> Apart(s[g - 1]))
    ensures Span(g, NumeralEnd(s, g)) in Numerals(s, 0)
  {
    hide Numerals, NumeralEnd, Separated;
    NumeralsCover(s, 0, g);
    NumeralsSpan(s, 0);
    var found :| found in Numerals(s, 0) && found.Has(g);
    if found.start < g {
      NumeralChars(s, found.start, g - 1);
    }
  }

  /** A number that stands alone is a plain numeral, worth that number. */
  lemma LoneIsNumeral(s: string, before: string, n: nat, behind: string)
    requires StandsAlone(s, before, n, behind)
    ensures PlaceOf(before, n) in Numerals(s, 0) && PlaceOf(before, n).end <= |s|
    ensures Raw(s, PlaceOf(before, n)) == Digits(n) && ValueOf(Digits(n)) == n as real && AllDigits(Digits(n))
  {
    LoneText(s, before, n, behind);
    ValueOfDigits(n);
    DigitsAreDigits(n);
    hide Numerals, NumeralEnd, Digits, ValueOf, Raw, StandsAlone, AllDigits;
    FreshNumeral(s, PlaceOf(before, n).start);
  }

  /** The two numbers differ by more than the tolerance. */
  predicate Far(x: real, y: real, tolerance: real) {
    x - y > tolerance || y - x > tolerance
  }

  /** A lone number that is no percentage passes as a time window, as a count up to twelve, or near a known number. */
  lemma LoneNumberAccepted(s: string, before: string, n: nat, behind: string, known: map<string, real>)
    requires StandsAlone(s, before, n, behind)
    ensures PlaceOf(before, n).end <= |s|
    ensures AcceptedFigure(s, PlaceOf(before, n), known)
            <==> || TimeUnitFollows(s, PlaceOf(before, n).end) || 1 <= n <= 12
                 || exists name :: name in known && !(Far(n as real, known[name], 0.01)
                                                      && Far(n as real, known[name], 0.005 * known[name])
                                                      && Far(n as real, known[name], 0.005 * -known[name]))
  {
    LoneIsNumeral(s, before, n, behind);
    hide TimeUnitFollows, ValueOf, Raw, Digits, Numerals, StandsAlone, AllDigits;
    FigureExactly(s, PlaceOf(before, n), n, known);
    hide AcceptedFigure;
    forall name | name in known
      ensures Abs(n as real - known[name]) > Tolerance(known[name])
              <==> && Far(n as real, known[name], 0.01) && Far(n as real, known[name], 0.005 * known[name])
                   && Far(n as real, known[name], 0.005 * -known[name])
    {
      FarExactly(n as real, known[name]);
    }
    hide Abs, Tolerance, Far;
  }

  lemma FigureExactly(s: string, sp: Span, n: nat, known: map<string, real>)
    requires sp.end <= |s| && AllDigits(Raw(s, sp)) && ValueOf(Raw(s, sp)) == n as real
    ensures AcceptedFigure(s, sp, known)
            <==> || TimeUnitFollows(s, sp.end) || 1 <= n <= 12
                 || exists name :: name in known && !(Abs(n as real - known[name]) > Tolerance(known[name]))
  {
    hide TimeUnitFollows, ValueOf, Raw, AllDigits, Abs, Tolerance;
  }

  lemma FarExactly(x: real, y: real)
    ensures Abs(x - y) > Tolerance(y) <==> Far(x, y, 0.01) && Far(x, y, 0.005 * y) && Far(x, y, 0.005 * -y)
  {}

  /**
   * No number gets by: an integer above twelve that stands alone, with no percent sign and no time unit behind it,
   * makes its text unsupported unless it is within 0.01 or half a percent of a known number.
   */
  lemma LoneNumberRefused(s: string, before: string, n: nat, behind: string, known: map<string, real>)
    requires StandsAlone(s, before, n, behind) && n > 12
    requires PlaceOf(before, n).end <= |s| && !PercentFollows(s, PlaceOf(before, n).end)
    requires !TimeUnitFollows(s, PlaceOf(before, n).end)
    requires forall name | name in known ::
               && Far(n as real, known[name], 0.01) && Far(n as real, known[name], 0.005 * known[name])
               && Far(n as real, known[name], 0.005 * -known[name])
    ensures !Supported(s, known)
  {
    var sp := PlaceOf(before, n);
    LoneIsNumeral(s, before, n, behind);
    LoneNumberAccepted(s, before, n, behind, known);
    hide Numerals, Percentages, Supported, AcceptedFigure, AcceptedPercentage, ValueOf, Raw, Digits, StandsAlone, Far;
    SupportedNumerals(s, known);
    PercentagesSpan(s, 0);
  }

  /** An integer above ten before a percent sign, more than a point off every known number, is refused likewise. */
  lemma LonePercentageRefused(s: string, before: string, n: nat, behind: string, known: map<string, real>)
    requires StandsAlone(s, before, n, behind) && n > 10
    requires PlaceOf(before, n).end <= |s| && PercentFollows(s, PlaceOf(before, n).end)
    requires forall name | name in known :: Far(n as real, known[name], 1.0)
    ensures !Supported(s, known)
  {
    var sp := PlaceOf(before, n);
    LoneIsNumeral(s, before, n, behind);
    LoneText(s, before, n, behind);
    assert !AcceptedPercentage(s, sp, known) by {
      hide Raw, ValueOf, HasDelta, HasDirectionalVerb;
    }
    hide Numerals, Percentages, Supported, AcceptedFigure, AcceptedPercentage, ValueOf, Raw, Digits, StandsAlone, Far;
    SupportedNumerals(s, known);
    PercentageUnlessPointed(s, sp);
  }

  /** For one: nobody has counted these leads. */
  lemma TwentyFiveLeads()
    ensures !Supported("25 leads", map[])
  {
    TwentyFive();
    LeadsNoTime();
    LeadsNoPercent();
    hide *;
    LoneNumberRefused("25 leads", "", 25, " leads", map[]);
  }

  lemma TwentyFive()
    ensures StandsAlone("25 leads", "", 25, " leads") && PlaceOf("", 25) == Span(0, 2)
  {
    assert Digits(25) == "25";
  }

  lemma LeadsNoPercent()
    ensures !PercentFollows("25 leads", 2)
  {
    assert RunEnd("25 leads", 2, IsSpace) == 3;
  }

  lemma LeadsNoTime()
    ensures !TimeUnitFollows("25 leads", 2)
  {
    var s := "25 leads";
    assert RunEnd(s, 2, IsSpaceOrHyphen) == 3;
    forall u | u in TIME_UNITS
      ensures !OccursAt(Lower(s), 3, u)
    {
      ReadsExactly(s, 3, u);
      assert !SameLetter(s[3 + 0], u[0]);
    }
  }

  // ---------- The numbers of the context, and the notes ----------

  /** A metric that is a number is known under its name, and a ratio in percent as well. */
  predicate FromMetric(metric: (string, Entry), name: string, x: real) {
    && metric.1.Number?
    && ((name == metric.0 && x == metric.1.value)
        || (0.0 <= metric.1.value <= 1.0 && name == metric.0 + "_pct" && x == metric.1.value * 100.0))
  }

  lemma MetricExactly(metric: (string, Entry), name: string, x: real)
    ensures (name, x) in MetricNumbers(metric.0, metric.1) <==> FromMetric(metric, name, x)
  {}

  lemma {:induction false} MetricsExactly(metrics: seq<(string, Entry)>, name: string, x: real)
    ensures (name, x) in MetricsNumbers(metrics) <==> exists m :: m in metrics && FromMetric(m, name, x)
  {
    if metrics != [] {
      hide FromMetric, MetricNumbers;
      var n := |metrics| - 1;
      MetricsExactly(metrics[..n], name, x);
      MetricExactly(metrics[n], name, x);
      LastOrBefore(metrics);
    }
  }

  /** Which numbers of the context are known, and under which names. */
  lemma ContextNumbersExactly(context: Context, name: string, x: real)
    ensures (name, x) in ContextNumbers(context)
            <==> || (exists m :: m in context.metrics && FromMetric(m, name, x))
                 || (name == "audience_size" && context.audienceSize == Number(x))
                 || SampleHas(context.sample, "count", name, x) || SampleHas(context.sample, "mean", name, x)
                 || SampleHas(context.sample, "max", name, x) || SampleHas(context.sample, "min", name, x)
  {
    MetricsExactly(context.metrics, name, x);
    SampleExactly(context.sample, name, x);
    hide FromMetric, MetricsNumbers, SampleNumbers, SampleHas;
  }

  predicate SampleHas(sample: map<string, Entry>, key: string, name: string, x: real) {
    key in sample && sample[key] == Number(x) && name == "engagement_sample_" + key
  }

  lemma SampleUpTo(sample: map<string, Entry>, n: nat, name: string, x: real)
    requires n < |SAMPLE_KEYS|
    ensures (name, x) in SampleNumbers(sample, n + 1)
            <==> (name, x) in SampleNumbers(sample, n) || SampleHas(sample, SAMPLE_KEYS[n], name, x)
  {}

  lemma SampleExactly(sample: map<string, Entry>, name: string, x: real)
    ensures (name, x) in SampleNumbers(sample, |SAMPLE_KEYS|)
            <==> || SampleHas(sample, "count", name, x) || SampleHas(sample, "mean", name, x)
                 || SampleHas(sample, "max", name, x) || SampleHas(sample, "min", name, x)
  {
    SampleUpTo(sample, 0, name, x);
    SampleUpTo(sample, 1, name, x);
    SampleUpTo(sample, 2, name, x);
    SampleUpTo(sample, 3, name, x);
    assert SampleNumbers(sample, 0) == [];
    hide SampleHas, SampleNumbers;
  }

  lemma {:induction false} StatisticNoteExactly(s: string, spans: seq<Span>, known: map<string, real>, note: Note)
    ensures note in StatisticNotes(s, spans, known)
            <==> exists q :: q in spans && !AcceptedPercentage(s, q, known)
                             && note == UnverifiedStatistic(ValueOf(Raw(s, q)))
  {
    if spans != [] {
      hide AcceptedPercentage, ValueOf, Raw;
      LastOrBefore(spans);
      StatisticNoteExactly(s, spans[..|spans| - 1], known, note);
    }
  }

  lemma {:induction false} FigureNoteExactly(s: string, spans: seq<Span>, known: map<string, real>, note: Note)
    ensures note in FigureNotes(s, spans, known)
            <==> exists sp :: sp in spans && !AcceptedFigure(s, sp, known) && note == UnverifiedFigure(Text(s, sp))
  {
    if spans != [] {
      hide AcceptedFigure, Text;
      LastOrBefore(spans);
      FigureNoteExactly(s, spans[..|spans| - 1], known, note);
    }
  }

  /** A text's notes name the value of each refused percentage, and the words of each refused plain numeral. */
  lemma NotesExactly(s: string, known: map<string, real>, note: Note)
    ensures note in NotesOf(s, known)
            <==> || (exists q :: q in Percentages(s, 0) && !AcceptedPercentage(s, q, known)
                                 && note == UnverifiedStatistic(ValueOf(Raw(s, q))))
                 || (exists sp :: sp in Numerals(s, 0) && sp !in Percentages(s, 0) && !AcceptedFigure(s, sp, known)
                                  && note == UnverifiedFigure(Text(s, sp)))
  {
    hide Numerals, Percentages, AcceptedFigure, AcceptedPercentage, ValueOf, Raw, Text, StatisticNotes, FigureNotes,
         Unskipped, Skipped, Separated;
    NumeralsSpan(s, 0);
    UnskippedMembers(Numerals(s, 0), Percentages(s, 0));
    forall sp | sp in Numerals(s, 0)
      ensures Skipped(sp, Percentages(s, 0)) <==> sp in Percentages(s, 0)
    {
      SkippedIsPercentage(s, sp);
    }
    StatisticNoteExactly(s, Percentages(s, 0), known, note);
    FigureNoteExactly(s, Unskipped(Numerals(s, 0), Percentages(s, 0)), known, note);
  }
}
