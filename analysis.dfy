/**
  The read side of the analysis endpoints: how the complexity distribution
  buckets word counts, how each deregulation opportunity is labelled, and
  how the word-count summary averages the per-agency averages.
 */
module Analysis {
  import opened JsValue

  /** The four labels the endpoints use: "Low", "Medium", "High", "Very High". */
  datatype Level = Low | Medium | High | VeryHigh

  function Label(l: Level): string {
    match l
    case Low => "Low"
    case Medium => "Medium"
    case High => "High"
    case VeryHigh => "Very High"
  }

  function Rank(l: Level): nat {
    match l
    case Low => 0
    case Medium => 1
    case High => 2
    case VeryHigh => 3
  }

  // ---------------------------------------------------------------------
  // The complexity distribution
  // ---------------------------------------------------------------------

  /** The `CASE` of the distribution query: under 100, under 150, under 200, or more. */
  function Bucket(wordCount: int): Level {
    if wordCount < 100 then Low
    else if wordCount < 150 then Medium
    else if wordCount < 200 then High
    else VeryHigh
  }

  /** More words never put a regulation in a lower bucket. */
  lemma BucketMonotone(a: int, b: int)
    requires a <= b
    ensures Rank(Bucket(a)) <= Rank(Bucket(b))
  {
  }

  /** `COUNT(*)` of one group: the positive word counts (`WHERE word_count > 0`) that fall in bucket `l`. */
  function BucketCount(wordCounts: seq<int>, l: Level): (n: nat)
    ensures n <= |wordCounts|
  {
    if wordCounts == [] then 0
    else
      var w := wordCounts[|wordCounts| - 1];
      BucketCount(wordCounts[..|wordCounts| - 1], l) + (if w > 0 && Bucket(w) == l then 1 else 0)
  }

  /** The number of positive word counts. */
  function PositiveCount(wordCounts: seq<int>): (n: nat)
    ensures n <= |wordCounts|
  {
    if wordCounts == [] then 0
    else PositiveCount(wordCounts[..|wordCounts| - 1]) + (if wordCounts[|wordCounts| - 1] > 0 then 1 else 0)
  }

  /** The four groups partition the regulations the query counts: every positive word count is in exactly one. */
  lemma {:induction false} BucketsPartition(wordCounts: seq<int>)
    ensures BucketCount(wordCounts, Low) + BucketCount(wordCounts, Medium)
          + BucketCount(wordCounts, High) + BucketCount(wordCounts, VeryHigh) == PositiveCount(wordCounts)
  {
    if wordCounts != [] {
      BucketsPartition(wordCounts[..|wordCounts| - 1]);
    }
  }

  // ---------------------------------------------------------------------
  // Deregulation opportunities
  // ---------------------------------------------------------------------

  /** A row of the opportunities query; any column may be NULL. */
  datatype OpportunityRow = OpportunityRow(
    sectionNumber: Option<string>,
    partNumber: Option<int>,
    wordCount: Option<int>,
    content: Option<string>,
    agencyName: Option<string>,
    shortName: Option<string>)

  /** One opportunity as the endpoint returns it; the savings are the two ends of the estimated range. */
  datatype Opportunity = Opportunity(
    title: string,
    agencyName: string,
    wordCount: int,
    complexity: Level,
    impact: Level,
    savingsLow: int,
    savingsHigh: int,
    potential: Level,
    preview: string)

  /** The complexity label of an opportunity: 200, 175 and 150 words are the thresholds. */
  function OpportunityComplexity(wordCount: int): Level {
    if wordCount >= 200 then VeryHigh
    else if wordCount >= 175 then High
    else if wordCount >= 150 then Medium
    else Low
  }

  /** The impact label of an opportunity. */
  function OpportunityImpact(wordCount: int): Level {
    if wordCount >= 200 then High
    else if wordCount >= 150 then Medium
    else Low
  }

  /** A part number as a template string renders it; NULL renders as "null". */
  function PartText(partNumber: Option<int>): string {
    match partNumber
    case Some(n) => IntToString(n)
    case None => "null"
  }

  function OpportunityTitle(sectionNumber: Option<string>, partNumber: Option<int>): string {
    if Truthy(sectionNumber) then "Part " + PartText(partNumber) + ", Section " + sectionNumber.value
    else "Part " + PartText(partNumber)
  }

  const NoPreview: string := "No content preview"

  /** `content.substring(0, 100) + "..."`, or a fixed text when there is no content. */
  function Preview(content: Option<string>): string {
    if Truthy(content) then
      var c := content.value;
      c[..if |c| < 100 then |c| else 100] + "..."
    else NoPreview
  }

  /** `short_name || agency_name || "Unknown Agency"` */
  function OpportunityAgency(shortName: Option<string>, agencyName: Option<string>): string {
    if Truthy(shortName) then shortName.value
    else if Truthy(agencyName) then agencyName.value
    else "Unknown Agency"
  }

  /** The mapping applied to each row of the opportunities query. */
  function ToOpportunity(row: OpportunityRow): Opportunity {
    var wc := row.wordCount.GetOr(0);
    Opportunity(
      OpportunityTitle(row.sectionNumber, row.partNumber),
      OpportunityAgency(row.shortName, row.agencyName),
      wc,
      OpportunityComplexity(wc),
      OpportunityImpact(wc),
      wc * 100,
      wc * 500,
      if wc > 175 then High else Medium,
      Preview(row.content))
  }

  /** A NULL word count counts as zero, and such a row is labelled Low on both scales. */
  lemma MissingWordCountIsZero(row: OpportunityRow)
    requires row.wordCount.None? || row.wordCount == Some(0)
    ensures var o := ToOpportunity(row);
      o.wordCount == 0 && o.complexity == Low && o.impact == Low && o.potential == Medium
      && o.savingsLow == 0 && o.savingsHigh == 0
  {
  }

  /**
    The two labels move together: impact is High exactly when complexity is
    Very High, and Low exactly when complexity is Low.
   */
  lemma ImpactFollowsComplexity(row: OpportunityRow)
    ensures var o := ToOpportunity(row);
      && (o.impact == High <==> o.complexity == VeryHigh)
      && (o.impact == Low <==> o.complexity == Low)
      && (o.impact == Medium <==> o.complexity in {Medium, High})
  {
  }

  /** The query only returns rows of 150 words or more, and none of those is labelled Low. */
  lemma SelectedRowsAreNeverLow(row: OpportunityRow)
    requires row.wordCount.GetOr(0) >= 150
    ensures ToOpportunity(row).complexity != Low && ToOpportunity(row).impact != Low
  {
  }

  /** Longer regulations never get a lower complexity or impact label. */
  lemma LabelsMonotone(a: int, b: int)
    requires a <= b
    ensures Rank(OpportunityComplexity(a)) <= Rank(OpportunityComplexity(b))
    ensures Rank(OpportunityImpact(a)) <= Rank(OpportunityImpact(b))
  {
  }

  /** The simplification potential is High exactly above 175 words. */
  lemma PotentialHighAbove175(row: OpportunityRow)
    ensures var o := ToOpportunity(row);
      (o.potential == High <==> o.wordCount > 175) && (o.potential == Medium <==> o.wordCount <= 175)
  {
  }

  /**
    At exactly 175 words the two rules disagree: the complexity threshold is
    inclusive (`>= 175`) and the potential threshold strict (`> 175`).
   */
  lemma BoundaryAt175(row: OpportunityRow)
    requires row.wordCount == Some(175)
    ensures ToOpportunity(row).complexity == High && ToOpportunity(row).potential == Medium
  {
  }

  /** The savings range runs from 100 to 500 dollars a word, so its top is five times its bottom. */
  lemma SavingsRange(row: OpportunityRow)
    ensures var o := ToOpportunity(row);
      o.savingsHigh == 5 * o.savingsLow && (o.wordCount >= 0 ==> 0 <= o.savingsLow <= o.savingsHigh)
  {
  }

  /**
    The preview of a row with content is its first hundred characters (all of
    them if it is shorter) followed by "..."; a row without content gets the
    fixed text, and only such a row does.
   */
  lemma PreviewShape(content: Option<string>)
    ensures var p := Preview(content);
      && (Truthy(content) ==>
            var keep := if |content.value| < 100 then |content.value| else 100;
            |p| == keep + 3 && p[..keep] == content.value[..keep] && p[keep..] == "...")
      && (p == NoPreview <==> !Truthy(content))
  {
    var p := Preview(content);
    if Truthy(content) {
      assert p[|p| - 1] == '.';
      assert NoPreview[|NoPreview| - 1] == 'w';
    }
  }

  /** The agency shown is the short name, else the full name, else "Unknown Agency"; it is never empty. */
  lemma AgencyFallback(shortName: Option<string>, agencyName: Option<string>)
    ensures var a := OpportunityAgency(shortName, agencyName);
      && a != []
      && (Truthy(shortName) ==> a == shortName.value)
      && (!Truthy(shortName) && Truthy(agencyName) ==> a == agencyName.value)
      && (!Truthy(shortName) && !Truthy(agencyName) ==> a == "Unknown Agency")
  {
  }

  /** The title always starts "Part <part>", and goes on to name the section exactly when there is one. */
  lemma TitleNamesSection(sectionNumber: Option<string>, partNumber: Option<int>)
    ensures var t := OpportunityTitle(sectionNumber, partNumber);
      var head := "Part " + PartText(partNumber);
      && |head| <= |t| && t[..|head|] == head
      && (Truthy(sectionNumber) <==> |t| > |head|)
      && (Truthy(sectionNumber) ==> t[|head|..] == ", Section " + sectionNumber.value)
  {
    var t := OpportunityTitle(sectionNumber, partNumber);
    var head := "Part " + PartText(partNumber);
    if Truthy(sectionNumber) {
      assert t == head + (", Section " + sectionNumber.value);
    }
  }

  /**
    The distribution and the opportunity list label the same regulation
    alike from 175 words up, but from 150 to 174 words the distribution says
    High while the opportunity says Medium.
   */
  lemma DistributionAndOpportunityLabels(wordCount: int)
    requires wordCount >= 150
    ensures wordCount >= 175 ==> Bucket(wordCount) == OpportunityComplexity(wordCount)
    ensures wordCount < 175 ==> Bucket(wordCount) == High && OpportunityComplexity(wordCount) == Medium
  {
  }

  // ---------------------------------------------------------------------
  // The word-count summary
  // ---------------------------------------------------------------------

  /**
    A row of the word-count query: per agency, the SQL `COUNT`, `AVG`, `SUM`,
    `MAX` and `MIN` of its positive word counts. A column the driver hands
    back as NULL is `None`.
   */
  datatype WordCountRow = WordCountRow(name: string, shortName: Option<string>, regulationCount: Option<int>,
                                       avgWordCount: Option<real>, totalWords: Option<int>,
                                       maxWordCount: Option<int>, minWordCount: Option<int>)

  datatype AgencyWordCount = AgencyWordCount(agency: string, regulationCount: int, avgWordCount: int,
                                             totalWords: int, maxWordCount: int, minWordCount: int)

  /**
    One entry of `formattedData`: `agency: short_name || name`, each integer
    column `parseInt(x || 0)` and the average `Math.round(parseFloat(avg || 0))`.
   */
  function FormatRow(row: WordCountRow): (r: AgencyWordCount)
    ensures r.agency == if Truthy(row.shortName) then row.shortName.value else row.name
    ensures row.avgWordCount.Some? ==> r.avgWordCount as real - 0.5 <= row.avgWordCount.value < r.avgWordCount as real + 0.5
    ensures row.avgWordCount.None? ==> r.avgWordCount == 0
    ensures r.regulationCount == row.regulationCount.GetOr(0) && r.totalWords == row.totalWords.GetOr(0)
    ensures r.maxWordCount == row.maxWordCount.GetOr(0) && r.minWordCount == row.minWordCount.GetOr(0)
  {
    AgencyWordCount(if Truthy(row.shortName) then row.shortName.value else row.name,
                    row.regulationCount.GetOr(0),
                    Round(row.avgWordCount.GetOr(0.0)),
                    row.totalWords.GetOr(0),
                    row.maxWordCount.GetOr(0),
                    row.minWordCount.GetOr(0))
  }

  /**
    SQL's `MIN <= AVG <= MAX` survives the formatting: rounding the average
    cannot carry it past either whole-number bound.
   */
  lemma FormattedAverageBetweenExtremes(row: WordCountRow)
    requires row.avgWordCount.Some? && row.maxWordCount.Some? && row.minWordCount.Some?
    requires row.minWordCount.value as real <= row.avgWordCount.value <= row.maxWordCount.value as real
    ensures FormatRow(row).minWordCount <= FormatRow(row).avgWordCount <= FormatRow(row).maxWordCount
  {
    RoundWithin(row.avgWordCount.value, row.minWordCount.value, row.maxWordCount.value);
  }

  function FormatRows(rows: seq<WordCountRow>): (r: seq<AgencyWordCount>)
    ensures |r| == |rows|
    ensures forall i :: 0 <= i < |rows| ==> r[i] == FormatRow(rows[i])
  {
    seq(|rows|, i requires 0 <= i < |rows| => FormatRow(rows[i]))
  }

  function TotalRegulations(rows: seq<AgencyWordCount>): int {
    if rows == [] then 0 else TotalRegulations(rows[..|rows| - 1]) + rows[|rows| - 1].regulationCount
  }

  function SumOfAverages(rows: seq<AgencyWordCount>): int {
    if rows == [] then 0 else SumOfAverages(rows[..|rows| - 1]) + rows[|rows| - 1].avgWordCount
  }

  datatype Summary = Summary(totalAgencies: nat, totalRegulations: int, overallAvgWords: Num)

  /**
    The `summary` of the word-count endpoint: the rounded mean of the
    per-agency averages, unweighted by regulation count, and NaN (`0 / 0`)
    when no agency has regulations.
   */
  function WordCountSummary(rows: seq<AgencyWordCount>): (s: Summary)
    ensures s.totalAgencies == |rows|
    ensures s.overallAvgWords.NaN? <==> rows == []
  {
    Summary(|rows|, TotalRegulations(rows),
            if rows == [] then NaN else Finite(Round(SumOfAverages(rows) as real / |rows| as real) as real))
  }

  predicate AveragesWithin(rows: seq<AgencyWordCount>, lo: int, hi: int) {
    forall i :: 0 <= i < |rows| ==> lo <= rows[i].avgWordCount <= hi
  }

  lemma {:induction false} SumOfAveragesWithin(rows: seq<AgencyWordCount>, lo: int, hi: int)
    requires AveragesWithin(rows, lo, hi)
    ensures |rows| * lo <= SumOfAverages(rows) <= |rows| * hi
  {
    if rows != [] {
      var n := |rows|;
      var init := rows[..n - 1];
      assert AveragesWithin(init, lo, hi) by {
        forall i | 0 <= i < |init|
          ensures lo <= init[i].avgWordCount <= hi
        {
          assert init[i] == rows[i];
        }
      }
      SumOfAveragesWithin(init, lo, hi);
      assert n * lo == (n - 1) * lo + lo;
      assert n * hi == (n - 1) * hi + hi;
    }
  }

  /** The overall average lies between the smallest and the largest per-agency average. */
  lemma OverallAverageWithin(rows: seq<AgencyWordCount>, lo: int, hi: int)
    requires rows != [] && AveragesWithin(rows, lo, hi)
    ensures var s := WordCountSummary(rows);
      s.overallAvgWords.Finite? && lo as real <= s.overallAvgWords.value <= hi as real
  {
    var n := |rows|;
    var sum := SumOfAverages(rows);
    SumOfAveragesWithin(rows, lo, hi);
    assert n as real * lo as real <= sum as real <= n as real * hi as real;
    QuotientWithin(sum as real, n as real, lo as real, hi as real);
    RoundWithin(sum as real / n as real, lo, hi);
  }

  lemma QuotientWithin(t: real, n: real, lo: real, hi: real)
    requires n > 0.0 && n * lo <= t <= n * hi
    ensures lo <= t / n <= hi
  {
  }

  /** When every agency has the same average, that is the overall average. */
  lemma UniformAverages(rows: seq<AgencyWordCount>, a: int)
    requires rows != [] && forall i :: 0 <= i < |rows| ==> rows[i].avgWordCount == a
    ensures WordCountSummary(rows).overallAvgWords == Finite(a as real)
  {
    OverallAverageWithin(rows, a, a);
  }

  /** The total is the sum of the per-agency counts: with every count non-negative, it is at least each one. */
  lemma {:induction false} TotalCoversEachAgency(rows: seq<AgencyWordCount>, i: nat)
    requires i < |rows|
    requires forall k :: 0 <= k < |rows| ==> rows[k].regulationCount >= 0
    ensures TotalRegulations(rows) >= rows[i].regulationCount
    ensures TotalRegulations(rows) >= 0
  {
    var init := rows[..|rows| - 1];
    assert forall k :: 0 <= k < |init| ==> init[k] == rows[k];
    if i < |rows| - 1 {
      TotalCoversEachAgency(init, i);
    } else if init != [] {
      TotalCoversEachAgency(init, 0);
    }
  }
}
