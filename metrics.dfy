/**
  The per-agency analysis metrics the importer computes once all titles are
  in, and the deregulation opportunity score behind one of them. A JavaScript
  number that can become NaN (an average over no values, or anything computed
  from one) is a `Num`.
 */
module Metrics {
  import opened JsValue
  import opened TextMetrics
  import opened ImportModel

  datatype Metric = Metric(name: string, value: Num)

  /** `agency.Regulations`: the agency's regulations, in table order. */
  function AgencyRegulations(regs: seq<Regulation>, agencyId: nat): (r: seq<Regulation>)
    ensures |r| <= |regs|
    ensures forall x :: x in r <==> x in regs && x.loc.agencyId == agencyId
    ensures forall x :: multiset(r)[x] == if x.loc.agencyId == agencyId then multiset(regs)[x] else 0
  {
    if regs == [] then []
    else
      var init := AgencyRegulations(regs[..|regs| - 1], agencyId);
      var last := regs[|regs| - 1];
      assert regs == regs[..|regs| - 1] + [last];
      assert multiset(regs) == multiset(regs[..|regs| - 1]) + multiset{last};
      if last.loc.agencyId == agencyId then
        assert multiset(init + [last]) == multiset(init) + multiset{last};
        init + [last]
      else init
  }

  /** `regulations.reduce((sum, reg) => sum + (reg.wordCount || 0), 0)` */
  function TotalWords(regs: seq<Regulation>): nat {
    if regs == [] then 0 else TotalWords(regs[..|regs| - 1]) + regs[|regs| - 1].wordCount
  }

  /** Every word count lies between `lo` and `hi`. */
  predicate WordCountsWithin(regs: seq<Regulation>, lo: nat, hi: nat) {
    forall i :: 0 <= i < |regs| ==> lo <= regs[i].wordCount <= hi
  }

  /** The total lies between the count times the smallest and the count times the largest word count. */
  lemma {:induction false} TotalWordsWithin(regs: seq<Regulation>, lo: nat, hi: nat)
    requires WordCountsWithin(regs, lo, hi)
    ensures |regs| * lo <= TotalWords(regs) <= |regs| * hi
  {
    if regs != [] {
      var n := |regs|;
      var init := regs[..n - 1];
      assert WordCountsWithin(init, lo, hi) by {
        forall i | 0 <= i < |init|
          ensures lo <= init[i].wordCount <= hi
        {
          assert init[i] == regs[i];
        }
      }
      TotalWordsWithin(init, lo, hi);
      assert n * lo == (n - 1) * lo + lo;
      assert n * hi == (n - 1) * hi + hi;
      assert TotalWords(regs) == TotalWords(init) + regs[n - 1].wordCount;
    }
  }

  /** `totalWords / regulations.length`: NaN for an empty list. */
  function AverageWords(regs: seq<Regulation>): (r: Num)
    ensures r.NaN? <==> regs == []
  {
    if regs == [] then NaN else Finite(TotalWords(regs) as real / |regs| as real)
  }

  /** One year before `now`, as `Date.now() - 365 * 24 * 60 * 60 * 1000`. */
  const YearMs: int := 365 * 24 * 60 * 60 * 1000

  predicate IsRecent(r: Regulation, now: int) {
    r.lastUpdated > now - YearMs
  }

  /** The number of regulations updated strictly after one year before `now`. */
  function RecentCount(regs: seq<Regulation>, now: int): (n: nat)
    ensures n <= |regs|
    ensures n == 0 <==> forall i :: 0 <= i < |regs| ==> !IsRecent(regs[i], now)
    ensures n == |regs| <==> forall i :: 0 <= i < |regs| ==> IsRecent(regs[i], now)
  {
    if regs == [] then 0
    else
      var init := regs[..|regs| - 1];
      var n := RecentCount(init, now);
      assert forall i :: 0 <= i < |init| ==> init[i] == regs[i];
      if IsRecent(regs[|regs| - 1], now) then n + 1 else n
  }

  /** `(recentUpdates / regulations.length) * 100`: a percentage, NaN for an empty list. */
  function UpdateFrequency(regs: seq<Regulation>, now: int): (r: Num)
    ensures r.NaN? <==> regs == []
    ensures r.Finite? ==> 0.0 <= r.value <= 100.0
    ensures r.Finite? ==> (r.value == 100.0 <==> forall i :: 0 <= i < |regs| ==> IsRecent(regs[i], now))
    ensures r.Finite? ==> (r.value == 0.0 <==> forall i :: 0 <= i < |regs| ==> !IsRecent(regs[i], now))
  {
    if regs == [] then NaN
    else
      var k := RecentCount(regs, now);
      PercentOf(k, |regs|);
      Finite(k as real / |regs| as real * 100.0)
  }

  /** `k` out of `n`, as a percentage: 100 exactly for all, 0 exactly for none. */
  lemma PercentOf(k: nat, n: nat)
    requires 0 < n && k <= n
    ensures var p := k as real / n as real * 100.0; 0.0 <= p <= 100.0 && (p == 100.0 <==> k == n) && (p == 0.0 <==> k == 0)
  {
    var q := k as real / n as real;
    assert q * n as real == k as real;
    DivisionWithin(k as real, n as real, 0.0, 1.0);
  }

  /** The complexity score of each regulation's content, in table order. */
  function Scores(regs: seq<Regulation>): (r: seq<Num>)
    ensures |r| == |regs|
    ensures forall i :: 0 <= i < |regs| ==> r[i] == ComplexityScore(regs[i].content)
  {
    seq(|regs|, i requires 0 <= i < |regs| => ComplexityScore(regs[i].content))
  }

  /** `reduce((a, b) => a + b, 0)` over numbers: one NaN makes the sum NaN. */
  function NumSum(xs: seq<Num>): (r: Num)
    ensures r.NaN? <==> exists i :: 0 <= i < |xs| && xs[i].NaN?
  {
    if xs == [] then Finite(0.0)
    else
      var init := xs[..|xs| - 1];
      assert forall i :: 0 <= i < |init| ==> init[i] == xs[i];
      match (NumSum(init), xs[|xs| - 1])
      case (Finite(a), Finite(b)) => Finite(a + b)
      case _ => NaN
  }

  /** A sum of numbers each between 0 and 100 is a number between 0 and 100 times their count. */
  lemma {:induction false} NumSumWithin(xs: seq<Num>)
    requires forall i :: 0 <= i < |xs| ==> xs[i].Finite? && 0.0 <= xs[i].value <= 100.0
    ensures NumSum(xs).Finite?
    ensures 0.0 <= NumSum(xs).value <= |xs| as real * 100.0
  {
    if xs != [] {
      var init := xs[..|xs| - 1];
      assert forall i :: 0 <= i < |init| ==> init[i] == xs[i];
      NumSumWithin(init);
    }
  }

  /** `complexityScores.reduce((a, b) => a + b, 0) / complexityScores.length` */
  function AverageComplexity(regs: seq<Regulation>): (r: Num)
    ensures r.NaN? <==> regs == [] || exists i :: 0 <= i < |regs| && ComplexityScore(regs[i].content).NaN?
  {
    var scores := Scores(regs);
    if regs == [] then NaN
    else match NumSum(scores)
      case NaN => NaN
      case Finite(s) => Finite(s / |regs| as real)
  }

  function MinReal(a: real, b: real): real {
    if a <= b then a else b
  }

  function MaxReal(a: real, b: real): real {
    if a >= b then a else b
  }

  /**
    The arithmetic of `calculateDeregulationScore`: complexity, length and
    staleness factors, each capped at 100, weighted 0.4, 0.3 and 0.3, and
    the result held between 10 and 100.
   */
  function DeregulationScore(avgWords: real, avgComplexity: real, updateFrequency: real): (score: real)
    ensures 10.0 <= score <= 100.0
  {
    var complexityFactor := MinReal(100.0, avgComplexity * 1.2);
    var wordCountFactor := MinReal(100.0, avgWords / 75.0);
    var staleFactor := MaxReal(0.0, 100.0 - updateFrequency);
    MaxReal(10.0, MinReal(100.0, complexityFactor * 0.4 + wordCountFactor * 0.3 + staleFactor * 0.3))
  }

  /** More complex regulations never lower the score. */
  lemma DeregulationMonotoneInComplexity(avgWords: real, c1: real, c2: real, updateFrequency: real)
    requires c1 <= c2
    ensures DeregulationScore(avgWords, c1, updateFrequency) <= DeregulationScore(avgWords, c2, updateFrequency)
  {
  }

  /** Longer regulations never lower the score. */
  lemma DeregulationMonotoneInWords(w1: real, w2: real, avgComplexity: real, updateFrequency: real)
    requires w1 <= w2
    ensures DeregulationScore(w1, avgComplexity, updateFrequency) <= DeregulationScore(w2, avgComplexity, updateFrequency)
  {
  }

  /** More frequent updates never raise the score. */
  lemma DeregulationAntitoneInFrequency(avgWords: real, avgComplexity: real, f1: real, f2: real)
    requires f1 <= f2
    ensures DeregulationScore(avgWords, avgComplexity, f2) <= DeregulationScore(avgWords, avgComplexity, f1)
  {
  }

  /** With everything at its worst the score reaches 100; with everything at its best it is held at 10. */
  lemma DeregulationExtremes()
    ensures DeregulationScore(7500.0, 100.0, 0.0) == 100.0
    ensures DeregulationScore(0.0, 0.0, 100.0) == 10.0
  {
  }

  /** `calculateDeregulationScore`: the average word count is taken from the list itself; NaN in, NaN out. */
  function CalculateDeregulationScore(regs: seq<Regulation>, avgComplexity: Num, updateFrequency: Num): (r: Num)
    ensures r.Finite? ==> 10.0 <= r.value <= 100.0
    ensures r.NaN? <==> regs == [] || avgComplexity.NaN? || updateFrequency.NaN?
  {
    match (AverageWords(regs), avgComplexity, updateFrequency)
    case (Finite(w), Finite(c), Finite(f)) => Finite(DeregulationScore(w, c, f))
    case _ => NaN
  }

  /** `Math.round` on a number that may be NaN. */
  function RoundNum(n: Num): (r: Num)
    ensures r.NaN? <==> n.NaN?
    ensures n.Finite? ==> r.value == Round(n.value) as real
    ensures n.Finite? ==> r.value == r.value.Floor as real && r.value - 0.5 <= n.value < r.value + 0.5
  {
    match n
    case NaN => NaN
    case Finite(v) => Finite(Round(v) as real)
  }

  const MetricNames: seq<string> := ["total_words", "avg_words_per_regulation", "avg_complexity_score",
                                     "update_frequency_percent", "deregulation_opportunity_score", "regulation_count"]

  /** `Math.round(avgWords)` */
  function WordsMetric(regs: seq<Regulation>): Num {
    RoundNum(AverageWords(regs))
  }

  /** `Math.round(avgComplexity * 10) / 10` */
  function ComplexityMetric(regs: seq<Regulation>): Num {
    Round1Num(AverageComplexity(regs))
  }

  /** `Math.round(updateFrequency * 10) / 10` */
  function FrequencyMetric(regs: seq<Regulation>, now: int): Num {
    Round1Num(UpdateFrequency(regs, now))
  }

  /** `Math.round(deregulationScore * 10) / 10` */
  function DeregulationMetric(regs: seq<Regulation>, now: int): Num {
    Round1Num(CalculateDeregulationScore(regs, AverageComplexity(regs), UpdateFrequency(regs, now)))
  }

  /** The six metrics `calculateMetrics` stores for an agency with regulations. */
  function AgencyMetrics(regs: seq<Regulation>, now: int): seq<Metric> {
    [ Metric(MetricNames[0], Finite(TotalWords(regs) as real)),
      Metric(MetricNames[1], WordsMetric(regs)),
      Metric(MetricNames[2], ComplexityMetric(regs)),
      Metric(MetricNames[3], FrequencyMetric(regs, now)),
      Metric(MetricNames[4], DeregulationMetric(regs, now)),
      Metric(MetricNames[5], Finite(|regs| as real)) ]
  }

  /** The average word count lies between the smallest and the largest word count. */
  lemma AverageWordsWithin(regs: seq<Regulation>, lo: nat, hi: nat)
    requires |regs| > 0 && WordCountsWithin(regs, lo, hi)
    ensures lo as real <= AverageWords(regs).value <= hi as real
  {
    var n := |regs|;
    var t := TotalWords(regs);
    TotalWordsWithin(regs, lo, hi);
    ProductAsReal(n, lo);
    ProductAsReal(n, hi);
    DivisionWithin(t as real, n as real, lo as real, hi as real);
    assert AverageWords(regs).value == t as real / n as real;
  }

  lemma ProductAsReal(a: nat, b: nat)
    ensures (a * b) as real == a as real * b as real
  {
  }

  lemma DivisionWithin(t: real, n: real, lo: real, hi: real)
    requires n > 0.0 && n * lo <= t <= n * hi
    ensures lo <= t / n <= hi
  {
  }

  /** For normalised contents the average complexity is a number between 0 and 100. */
  lemma AverageComplexityInRange(regs: seq<Regulation>)
    requires |regs| > 0
    requires forall i :: 0 <= i < |regs| ==> IsNormalized(regs[i].content)
    ensures AverageComplexity(regs).Finite?
    ensures 0.0 <= AverageComplexity(regs).value <= 100.0
  {
    var scores := Scores(regs);
    forall i | 0 <= i < |scores|
      ensures scores[i].Finite? && 0.0 <= scores[i].value <= 100.0
    {
      NormalizedScore(regs[i].content);
    }
    AverageOfScores(scores);
  }

  lemma NormalizedScore(t: string)
    requires IsNormalized(t)
    ensures ComplexityScore(t).Finite? && 0.0 <= ComplexityScore(t).value <= 100.0
  {
    NormalizedHasWords(t);
  }

  /** The average of scores between 0 and 100 is a score between 0 and 100. */
  lemma AverageOfScores(xs: seq<Num>)
    requires |xs| > 0
    requires forall i :: 0 <= i < |xs| ==> xs[i].Finite? && 0.0 <= xs[i].value <= 100.0
    ensures NumSum(xs).Finite? && 0.0 <= NumSum(xs).value / |xs| as real <= 100.0
  {
    NumSumWithin(xs);
    DivisionWithin(NumSum(xs).value, |xs| as real, 0.0, 100.0);
  }

  /** The stored average word count is a whole number between the smallest and the largest word count. */
  lemma WordsMetricWithin(regs: seq<Regulation>, lo: nat, hi: nat)
    requires |regs| > 0 && WordCountsWithin(regs, lo, hi)
    ensures WordsMetric(regs).Finite? && lo as real <= WordsMetric(regs).value <= hi as real
  {
    AverageWordsWithin(regs, lo, hi);
    RoundWithin(AverageWords(regs).value, lo, hi);
  }

  /** For normalised contents the stored complexity and deregulation scores are numbers in their ranges. */
  lemma ScoreMetricsInRange(regs: seq<Regulation>, now: int)
    requires |regs| > 0
    requires forall i :: 0 <= i < |regs| ==> IsNormalized(regs[i].content)
    ensures ComplexityMetric(regs).Finite? && 0.0 <= ComplexityMetric(regs).value <= 100.0
    ensures DeregulationMetric(regs, now).Finite? && 10.0 <= DeregulationMetric(regs, now).value <= 100.0
  {
    AverageComplexityInRange(regs);
    Round1Within(AverageComplexity(regs).value, 0, 1000);
    var d := CalculateDeregulationScore(regs, AverageComplexity(regs), UpdateFrequency(regs, now));
    Round1Within(d.value, 100, 1000);
  }

  /** The stored update frequency of a non-empty list is a percentage. */
  lemma FrequencyMetricInRange(regs: seq<Regulation>, now: int)
    requires |regs| > 0
    ensures FrequencyMetric(regs, now).Finite? && 0.0 <= FrequencyMetric(regs, now).value <= 100.0
  {
    Round1Within(UpdateFrequency(regs, now).value, 0, 1000);
  }

  /**
    For regulations whose contents are normalised text (as the importer
    stores them) all six metrics are numbers: the rounded average word count
    lies between the smallest and the largest word count, and the complexity,
    frequency and deregulation metrics stay in their ranges.
   */
  lemma AgencyMetricsInRange(regs: seq<Regulation>, now: int, lo: nat, hi: nat)
    requires |regs| > 0 && WordCountsWithin(regs, lo, hi)
    requires forall i :: 0 <= i < |regs| ==> IsNormalized(regs[i].content)
    ensures |AgencyMetrics(regs, now)| == 6
    ensures AgencyMetrics(regs, now)[0].value == Finite(TotalWords(regs) as real)
    ensures var v := AgencyMetrics(regs, now)[1].value; v.Finite? && lo as real <= v.value <= hi as real
    ensures var v := AgencyMetrics(regs, now)[2].value; v.Finite? && 0.0 <= v.value <= 100.0
    ensures var v := AgencyMetrics(regs, now)[3].value; v.Finite? && 0.0 <= v.value <= 100.0
    ensures var v := AgencyMetrics(regs, now)[4].value; v.Finite? && 10.0 <= v.value <= 100.0
    ensures AgencyMetrics(regs, now)[5].value == Finite(|regs| as real)
  {
    AgencyMetricsShape(regs, now);
    WordsMetricWithin(regs, lo, hi);
    ScoreMetricsInRange(regs, now);
    FrequencyMetricInRange(regs, now);
  }

  lemma AgencyMetricsShape(regs: seq<Regulation>, now: int)
    ensures var ms := AgencyMetrics(regs, now);
      && |ms| == 6
      && ms[0] == Metric(MetricNames[0], Finite(TotalWords(regs) as real))
      && ms[1] == Metric(MetricNames[1], WordsMetric(regs))
      && ms[2] == Metric(MetricNames[2], ComplexityMetric(regs))
      && ms[3] == Metric(MetricNames[3], FrequencyMetric(regs, now))
      && ms[4] == Metric(MetricNames[4], DeregulationMetric(regs, now))
      && ms[5] == Metric(MetricNames[5], Finite(|regs| as real))
  {
  }

  /** The metrics `calculateMetrics` computes for agency `id`: none when it owns no regulation. */
  function Computed(regs: seq<Regulation>, now: int): nat -> Option<seq<Metric>> {
    (id: nat) => var own := AgencyRegulations(regs, id); if |own| > 0 then Some(AgencyMetrics(own, now)) else None
  }

  /** Visiting agencies 1 .. count in order, each computed list replaces the agency's stored metrics. */
  function Overwrite(metrics: map<nat, seq<Metric>>, count: nat, computed: nat -> Option<seq<Metric>>): map<nat, seq<Metric>> {
    if count == 0 then metrics
    else
      var before := Overwrite(metrics, count - 1, computed);
      match computed(count)
      case Some(ms) => before[count := ms]
      case None => before
  }

  lemma {:induction false} OverwriteEffect(metrics: map<nat, seq<Metric>>, count: nat, computed: nat -> Option<seq<Metric>>, id: nat)
    ensures var after := Overwrite(metrics, count, computed);
      && (1 <= id <= count && computed(id).Some? ==> id in after && after[id] == computed(id).value)
      && (!(1 <= id <= count && computed(id).Some?) ==>
            (id in after <==> id in metrics) && (id in metrics ==> after[id] == metrics[id]))
  {
    if count > 0 {
      OverwriteEffect(metrics, count - 1, computed, id);
    }
  }

  /**
    `calculateMetrics` over agencies 1 .. count: an agency with regulations
    gets its six metrics in place of whatever it had; one without keeps its own.
   */
  function RefreshMetrics(metrics: map<nat, seq<Metric>>, count: nat, regs: seq<Regulation>, now: int): map<nat, seq<Metric>> {
    Overwrite(metrics, count, Computed(regs, now))
  }

  /** What `calculateMetrics` leaves for each agency id. */
  lemma RefreshMetricsEffect(metrics: map<nat, seq<Metric>>, count: nat, regs: seq<Regulation>, now: int, id: nat)
    ensures var after := RefreshMetrics(metrics, count, regs, now);
      && (1 <= id <= count && |AgencyRegulations(regs, id)| > 0 ==>
            id in after && after[id] == AgencyMetrics(AgencyRegulations(regs, id), now))
      && (!(1 <= id <= count && |AgencyRegulations(regs, id)| > 0) ==>
            (id in after <==> id in metrics) && (id in metrics ==> after[id] == metrics[id]))
  {
    OverwriteEffect(metrics, count, Computed(regs, now), id);
  }

  /** An agency that owns no regulation has an empty list. */
  lemma {:induction false} NoneOwned(regs: seq<Regulation>, id: nat)
    requires forall i :: 0 <= i < |regs| ==> regs[i].loc.agencyId != id
    ensures AgencyRegulations(regs, id) == []
  {
    if regs != [] {
      var init := regs[..|regs| - 1];
      assert forall i :: 0 <= i < |init| ==> init[i] == regs[i];
      NoneOwned(init, id);
    }
  }

  /** An agency without regulations is skipped: its stored metrics are left exactly as they were. */
  lemma SkipsAgenciesWithoutRegulations(metrics: map<nat, seq<Metric>>, count: nat, regs: seq<Regulation>, now: int, id: nat)
    requires forall i :: 0 <= i < |regs| ==> regs[i].loc.agencyId != id
    ensures var after := RefreshMetrics(metrics, count, regs, now);
      (id in after <==> id in metrics) && (id in metrics ==> after[id] == metrics[id])
  {
    NoneOwned(regs, id);
    RefreshMetricsEffect(metrics, count, regs, now, id);
  }
  /** Each word count is at most the total. */
  lemma {:induction false} WordCountsWithinTotal(regs: seq<Regulation>)
    ensures WordCountsWithin(regs, 0, TotalWords(regs))
  {
    if regs != [] {
      var init := regs[..|regs| - 1];
      WordCountsWithinTotal(init);
      forall i | 0 <= i < |regs|
        ensures regs[i].wordCount <= TotalWords(regs)
      {
        if i < |init| {
          assert init[i] == regs[i];
        }
      }
    }
  }

  /** The regulations an agency owns in a consistent store hold normalised text. */
  lemma OwnedContentIsNormalized(digest: string -> string, st: ImportState, id: nat)
    requires Consistent(digest, st)
    ensures var own := AgencyRegulations(st.regulations, id);
      forall i :: 0 <= i < |own| ==> IsNormalized(own[i].content)
  {
    var own := AgencyRegulations(st.regulations, id);
    forall i | 0 <= i < |own|
      ensures IsNormalized(own[i].content)
    {
      assert own[i] in own;
      var j :| 0 <= j < |st.regulations| && st.regulations[j] == own[i];
    }
  }

  /**
    After `calculateMetrics` over a store the importer keeps consistent,
    every agency that owns regulations has six metrics, none of them NaN,
    with the complexity and frequency in 0 .. 100 and the deregulation
    score in 10 .. 100.
   */
  lemma RefreshedMetricsAreNumbers(digest: string -> string, st: ImportState, metrics: map<nat, seq<Metric>>, now: int, id: nat)
    requires Consistent(digest, st)
    requires 1 <= id <= |st.agencies| && |AgencyRegulations(st.regulations, id)| > 0
    ensures var after := RefreshMetrics(metrics, |st.agencies|, st.regulations, now);
      && id in after && |after[id]| == 6
      && after[id][0].value.Finite? && after[id][1].value.Finite? && after[id][5].value.Finite?
      && after[id][2].value.Finite? && 0.0 <= after[id][2].value.value <= 100.0
      && after[id][3].value.Finite? && 0.0 <= after[id][3].value.value <= 100.0
      && after[id][4].value.Finite? && 10.0 <= after[id][4].value.value <= 100.0
  {
    var own := AgencyRegulations(st.regulations, id);
    OwnedContentIsNormalized(digest, st, id);
    WordCountsWithinTotal(own);
    AgencyMetricsInRange(own, now, 0, TotalWords(own));
    RefreshMetricsEffect(metrics, |st.agencies|, st.regulations, now, id);
  }
}
