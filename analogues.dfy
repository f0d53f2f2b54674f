/**
 * Historical-analogue filtering and the predicted change: the learning-model
 * records for the current pattern are filtered by a strict sentiment
 * threshold, and the predicted change is the mean of the candidate list
 * [average, maximum, average] of the survivors' resulting quote changes.
 */
module Analogues {
  import opened Domain

  /** Record `x` has the company and pattern the learning-model query asks for. */
  predicate HasPattern(x: LearningModelRecord, company: string, quoteDirection: Direction, sentimentDirection: Direction) {
    x.company == company && x.previousQuoteDirection == quoteDirection && x.previousSentimentDirection == sentimentDirection
  }

  /** The learning-model query by company, previous quote direction and previous sentiment direction, in store order. */
  function MatchingRecords(records: seq<LearningModelRecord>, company: string, quoteDirection: Direction, sentimentDirection: Direction): (r: seq<LearningModelRecord>)
    ensures |r| <= |records|
    ensures forall x :: x in r <==> x in records && HasPattern(x, company, quoteDirection, sentimentDirection)
  {
    if |records| == 0 then []
    else
      var rest := MatchingRecords(records[1..], company, quoteDirection, sentimentDirection);
      if HasPattern(records[0], company, quoteDirection, sentimentDirection) then [records[0]] + rest else rest
  }

  /** Each record with the pattern occurs in the query result as often as in the store. */
  lemma {:induction false} MatchingRecordsKeepsEveryRecord(records: seq<LearningModelRecord>, company: string, quoteDirection: Direction, sentimentDirection: Direction)
    ensures forall x :: multiset(MatchingRecords(records, company, quoteDirection, sentimentDirection))[x]
                     == if HasPattern(x, company, quoteDirection, sentimentDirection) then multiset(records)[x] else 0
  {
    if |records| > 0 {
      assert records == [records[0]] + records[1..];
      MatchingRecordsKeepsEveryRecord(records[1..], company, quoteDirection, sentimentDirection);
    }
  }

  /**
   * A record survives when its own sentiment difference is strictly below the
   * current one: a record level with the threshold is dropped.
   */
  predicate IsWithinDifferenceFromAverage(sentimentDifference: real, x: LearningModelRecord)
    ensures IsWithinDifferenceFromAverage(sentimentDifference, x) ==> x.lastSentimentDifferenceFromAverage != sentimentDifference
  {
    x.lastSentimentDifferenceFromAverage < sentimentDifference
  }

  /** The records that pass the strict threshold, in their original order. */
  function FilterRecords(records: seq<LearningModelRecord>, sentimentDifference: real): (r: seq<LearningModelRecord>)
    ensures |r| <= |records|
    ensures forall x :: x in r <==> x in records && IsWithinDifferenceFromAverage(sentimentDifference, x)
  {
    if |records| == 0 then []
    else
      var rest := FilterRecords(records[1..], sentimentDifference);
      if IsWithinDifferenceFromAverage(sentimentDifference, records[0]) then [records[0]] + rest else rest
  }

  /** Each record that passes the threshold survives as often as it occurs. */
  lemma {:induction false} FilterRecordsKeepsEveryRecord(records: seq<LearningModelRecord>, sentimentDifference: real)
    ensures forall x :: multiset(FilterRecords(records, sentimentDifference))[x]
                     == if IsWithinDifferenceFromAverage(sentimentDifference, x) then multiset(records)[x] else 0
  {
    if |records| > 0 {
      assert records == [records[0]] + records[1..];
      FilterRecordsKeepsEveryRecord(records[1..], sentimentDifference);
    }
  }

  /** Each record's resulting quote change, in record order. */
  function Changes(records: seq<LearningModelRecord>): (r: seq<real>)
    ensures |r| == |records|
    ensures forall i :: 0 <= i < |records| ==> r[i] == records[i].resultingQuoteChange
  {
    if |records| == 0 then [] else [records[0].resultingQuoteChange] + Changes(records[1..])
  }

  function Sum(xs: seq<real>): real {
    if |xs| == 0 then 0.0 else xs[0] + Sum(xs[1..])
  }

  /** A sum of n values, each within [lo, hi], lies within [n * lo, n * hi]. */
  lemma {:induction false} SumBounds(xs: seq<real>, lo: real, hi: real)
    requires forall i :: 0 <= i < |xs| ==> lo <= xs[i] <= hi
    ensures |xs| as real * lo <= Sum(xs) <= |xs| as real * hi
  {
    if |xs| > 0 {
      SumBounds(xs[1..], lo, hi);
      var n := (|xs| - 1) as real;
      assert n * lo + lo == |xs| as real * lo;
      assert n * hi + hi == |xs| as real * hi;
    }
  }

  /** DoubleStream.max(): empty when there are no values. */
  function Maximum(xs: seq<real>): (r: Option<real>)
    ensures r.Some? <==> |xs| > 0
    ensures r.Some? ==> r.value in xs && forall i :: 0 <= i < |xs| ==> xs[i] <= r.value
  {
    if |xs| == 0 then Null
    else
      var rest := Maximum(xs[1..]);
      if rest.Null? || rest.value < xs[0] then Some(xs[0]) else rest
  }

  /** The least value, used only to state where the predicted change lies. */
  function Minimum(xs: seq<real>): (r: Option<real>)
    ensures r.Some? <==> |xs| > 0
    ensures r.Some? ==> r.value in xs && forall i :: 0 <= i < |xs| ==> r.value <= xs[i]
  {
    if |xs| == 0 then Null
    else
      var rest := Minimum(xs[1..]);
      if rest.Null? || xs[0] < rest.value then Some(xs[0]) else rest
  }

  /** DoubleStream.average(): empty when there are no values. */
  function Average(xs: seq<real>): (r: Option<real>)
    ensures r.Some? <==> |xs| > 0
    ensures r.Some? ==> r.value * |xs| as real == Sum(xs)
  {
    if |xs| == 0 then Null else Some(Sum(xs) / |xs| as real)
  }

  /** An average lies between the least and the greatest of its values. */
  lemma AverageWithinRange(xs: seq<real>)
    requires |xs| > 0
    ensures Minimum(xs).value <= Average(xs).value <= Maximum(xs).value
  {
    MeanBounds(xs, Minimum(xs).value, Maximum(xs).value);
  }

  lemma MeanBounds(xs: seq<real>, lo: real, hi: real)
    requires |xs| > 0
    requires forall i :: 0 <= i < |xs| ==> lo <= xs[i] <= hi
    ensures lo <= Sum(xs) / |xs| as real <= hi
  {
    SumBounds(xs, lo, hi);
    DivisionBetween(Sum(xs), |xs| as real, lo, hi);
  }

  lemma DivisionBetween(s: real, n: real, lo: real, hi: real)
    requires n > 0.0 && n * lo <= s <= n * hi
    ensures lo <= s / n <= hi
  {
  }

  /**
   * The candidate list: the average, the maximum and the average again (the
   * "above difference" average uses the same filter as the first one), each
   * only when present.
   */
  function CandidateValues(survivors: seq<real>): (r: seq<real>)
    ensures |survivors| == 0 ==> r == []
    ensures |survivors| > 0 ==> |r| == 3 && r[0] == r[2] == Average(survivors).value && r[1] == Maximum(survivors).value
  {
    var averageBelow := Average(survivors);
    var maxBelow := Maximum(survivors);
    var averageAbove := Average(survivors);
    (if averageBelow.Some? then [averageBelow.value] else [])
    + (if maxBelow.Some? then [maxBelow.value] else [])
    + (if averageAbove.Some? then [averageAbove.value] else [])
  }

  /** The number of records, with multiplicity, that pass the threshold and have change `c`. */
  function PassingWithChange(records: seq<LearningModelRecord>, sentimentDifference: real, c: real): nat {
    if |records| == 0 then 0
    else
      var x := records[0];
      (if IsWithinDifferenceFromAverage(sentimentDifference, x) && x.resultingQuoteChange == c then 1 else 0)
      + PassingWithChange(records[1..], sentimentDifference, c)
  }

  /**
   * The resulting quote changes of the records that pass the threshold: each
   * value occurs as often as passing records carry it.
   */
  function SurvivingChanges(records: seq<LearningModelRecord>, sentimentDifference: real): (r: seq<real>)
    ensures forall c :: c in r <==> exists x :: x in records && IsWithinDifferenceFromAverage(sentimentDifference, x) && x.resultingQuoteChange == c
  {
    var kept := FilterRecords(records, sentimentDifference);
    var r := Changes(kept);
    assert forall c :: c in r ==> exists x :: x in kept && x.resultingQuoteChange == c by {
      forall c | c in r ensures exists x :: x in kept && x.resultingQuoteChange == c {
        var i :| 0 <= i < |r| && r[i] == c;
        assert kept[i] in kept;
      }
    }
    assert forall x :: x in kept ==> x.resultingQuoteChange in r by {
      forall x | x in kept ensures x.resultingQuoteChange in r {
        var i :| 0 <= i < |kept| && kept[i] == x;
        assert r[i] == x.resultingQuoteChange;
      }
    }
    r
  }

  /**
   * Each value occurs among the surviving changes exactly as often as
   * passing records carry it, so the averages and the maximum are taken
   * over every passing record.
   */
  lemma {:induction false} SurvivingChangesCountEveryRecord(records: seq<LearningModelRecord>, sentimentDifference: real)
    ensures forall c :: multiset(SurvivingChanges(records, sentimentDifference))[c] == PassingWithChange(records, sentimentDifference, c)
  {
    if |records| > 0 {
      SurvivingChangesCountEveryRecord(records[1..], sentimentDifference);
      var x := records[0];
      var rest := FilterRecords(records[1..], sentimentDifference);
      if IsWithinDifferenceFromAverage(sentimentDifference, x) {
        assert ([x] + rest)[1..] == rest;
        assert Changes([x] + rest) == [x.resultingQuoteChange] + Changes(rest);
      }
    }
  }

  /**
   * The predicted change for a set of analogue records and the current
   * sentiment difference: Null exactly when no record passes the threshold,
   * otherwise between the smallest and the largest surviving change.
   */
  function PredictedChange(records: seq<LearningModelRecord>, sentimentDifference: real): (r: Option<real>)
    ensures r.Null? <==> SurvivingChanges(records, sentimentDifference) == []
    ensures r.Some? ==> var survivors := SurvivingChanges(records, sentimentDifference);
                        Minimum(survivors).value <= r.value <= Maximum(survivors).value
  {
    var survivors := SurvivingChanges(records, sentimentDifference);
    CandidatesWithinSurvivors(survivors);
    Average(CandidateValues(survivors))
  }

  /** Every candidate value lies within the survivors' range, and so does their mean. */
  lemma CandidatesWithinSurvivors(survivors: seq<real>)
    ensures survivors != [] ==>
      Minimum(survivors).value <= Average(CandidateValues(survivors)).value <= Maximum(survivors).value
  {
    if survivors != [] {
      var values := CandidateValues(survivors);
      var lo, hi := Minimum(survivors).value, Maximum(survivors).value;
      AverageWithinRange(survivors);
      assert forall i :: 0 <= i < |values| ==> lo <= values[i] <= hi;
      MeanBounds(values, lo, hi);
    }
  }

  /** No record passes the strict threshold exactly when there is no prediction. */
  lemma NoSurvivorMeansNoPrediction(records: seq<LearningModelRecord>, sentimentDifference: real)
    ensures PredictedChange(records, sentimentDifference).Null?
        <==> forall x :: x in records ==> !IsWithinDifferenceFromAverage(sentimentDifference, x)
  {
    var survivors := SurvivingChanges(records, sentimentDifference);
    if x :| x in records && IsWithinDifferenceFromAverage(sentimentDifference, x) {
      assert x.resultingQuoteChange in survivors;
    }
  }

  /**
   * When every surviving record has the same change c (a single record in
   * particular), the prediction is exactly c.
   */
  lemma PredictedChangeOfAgreeingAnalogues(records: seq<LearningModelRecord>, sentimentDifference: real, c: real)
    requires exists x :: x in records && IsWithinDifferenceFromAverage(sentimentDifference, x)
    requires forall x :: x in records && IsWithinDifferenceFromAverage(sentimentDifference, x) ==> x.resultingQuoteChange == c
    ensures PredictedChange(records, sentimentDifference) == Some(c)
  {
    var survivors := SurvivingChanges(records, sentimentDifference);
    AllSurvivorsAre(records, sentimentDifference, c);
    var x :| x in records && IsWithinDifferenceFromAverage(sentimentDifference, x);
    assert x.resultingQuoteChange in survivors;
    MeanOfAgreeingValues(survivors, c);
  }

  lemma MeanOfAgreeingValues(survivors: seq<real>, c: real)
    requires survivors != [] && forall v :: v in survivors ==> v == c
    ensures Average(CandidateValues(survivors)) == Some(c)
  {
    CandidatesWithinSurvivors(survivors);
    assert Minimum(survivors).value in survivors && Maximum(survivors).value in survivors;
  }

  lemma AllSurvivorsAre(records: seq<LearningModelRecord>, sentimentDifference: real, c: real)
    requires forall x :: x in records && IsWithinDifferenceFromAverage(sentimentDifference, x) ==> x.resultingQuoteChange == c
    ensures forall v :: v in SurvivingChanges(records, sentimentDifference) ==> v == c
  {
  }

  /**
   * The mean of [average, maximum, average] weights the average twice: the
   * prediction is (2 * average + maximum) / 3 of the surviving changes.
   */
  lemma PredictedChangeWeightsAverageTwice(records: seq<LearningModelRecord>, sentimentDifference: real)
    requires SurvivingChanges(records, sentimentDifference) != []
    ensures var survivors := SurvivingChanges(records, sentimentDifference);
            PredictedChange(records, sentimentDifference)
              == Some((2.0 * Average(survivors).value + Maximum(survivors).value) / 3.0)
  {
    CandidateMean(SurvivingChanges(records, sentimentDifference));
  }

  lemma CandidateMean(survivors: seq<real>)
    requires survivors != []
    ensures Average(CandidateValues(survivors))
         == Some((2.0 * Average(survivors).value + Maximum(survivors).value) / 3.0)
  {
    var a, m := Average(survivors).value, Maximum(survivors).value;
    var values := CandidateValues(survivors);
    assert values == [a, m, a];
    SumOfThree(a, m, a);
  }

  lemma SumOfThree(a: real, b: real, c: real)
    ensures Sum([a, b, c]) == a + b + c
  {
    assert [a, b, c][1..] == [b, c];
    assert [b, c][1..] == [c];
    assert [c][1..] == [];
    assert Sum([c]) == c;
    assert Sum([b, c]) == b + c;
  }
}
