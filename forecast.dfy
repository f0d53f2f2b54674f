/**
 * The decision rules of prediction generation: the direction of a predicted
 * change, the expiry, the percent change, the potential earning per share,
 * and the candidate prediction one run of the generator computes for a
 * company before it is reconciled with the store.
 */
module Forecasting {
  import opened Domain
  import opened TradingCalendar
  import Analogues
  import CertaintyEstimator
  import DuplicateReconciler

  /** Up for a rise, Down for a fall, None for no change. */
  function DirectionOf(change: real): (d: Direction)
    ensures d == Up <==> change > 0.0
    ensures d == Down <==> change < 0.0
    ensures d == None <==> change == 0.0
  {
    if change > 0.0 then Up else if change < 0.0 then Down else None
  }

  /** The expiry of a prediction made at `now`: one day on, rolled forward off a weekend. */
  function Expiry(now: int): (e: int)
    ensures !IsWeekend(e)
    ensures PlusDays(now, 1) <= e <= PlusDays(now, 3)
  {
    RollForward(PlusDays(now, 1))
  }

  /**
   * The validity period the generator stores (expiry minus creation) is one,
   * two or three whole days, and so fits in a 32-bit int: the validator's
   * intValue() narrowing leaves it unchanged.
   */
  lemma ValidityPeriodIsOneToThreeDays(now: int)
    ensures var v := Expiry(now) - now;
            (v == DAY_MS || v == 2 * DAY_MS || v == 3 * DAY_MS) && IntValue(v) == v
  {
    RollForwardIsNextBusinessDay(PlusDays(now, 1));
  }

  /**
   * The expiry is the first business day after the creation day, at the
   * creation time of day: every day strictly between is a weekend day.
   */
  lemma ExpiryIsNextBusinessDay(now: int)
    ensures forall k :: 1 <= k && PlusDays(now, k) < Expiry(now) ==> IsWeekend(PlusDays(now, k))
    ensures !IsWeekend(PlusDays(now, 1)) ==> Expiry(now) == PlusDays(now, 1)
  {
    RollForwardIsNextBusinessDay(PlusDays(now, 1));
    forall k | 1 <= k && PlusDays(now, k) < Expiry(now)
      ensures IsWeekend(PlusDays(now, k))
    {
      assert PlusDays(now, k) == PlusDays(PlusDays(now, 1), k - 1);
    }
  }

  /** predictedChange / lastClose * 100, or Null when the last close is zero. */
  function PercentChange(change: real, lastClose: real): (r: Option<real>)
    ensures r.Null? <==> lastClose == 0.0
    ensures r.Some? ==> r.value * lastClose == change * 100.0
  {
    if lastClose == 0.0 then Null else Some(change / lastClose * 100.0)
  }

  /**
   * |bid - (ask - change)|: the distance between the bid and the ask moved
   * by the change; never negative.
   */
  function EarningPerShare(bid: real, ask: real, change: real): (r: real)
    ensures r >= 0.0
    ensures r == bid - ask + change || r == ask - change - bid
  {
    Abs(bid - (ask - change))
  }

  /** What one generator run decides before it looks at the open predictions. */
  datatype Plan =
    | Raise              // the company is unknown: the run fails with a runtime exception
    | NoQuotes           // no end-of-day quotes: nothing is written
    | DerivationFailed   // a quote or sentiment utility raised its domain exception
    | NoAnalogues        // no analogue record passes the sentiment threshold
    | Candidate(prediction: Prediction)

  /** The learning-model records of the company with the pattern the signals describe. */
  function PatternRecords(market: Market, companyId: string, signals: Signals): seq<LearningModelRecord>
    requires signals.Signals?
  {
    Analogues.MatchingRecords(market.learningRecords, companyId, signals.previousQuoteDirection, signals.previousSentimentDirection)
  }

  /**
   * The candidate prediction for `companyId` at `now`, from the query result
   * `quotePage` (end-of-day quotes, ascending by date), the derived `signals`
   * and the current store `ps` (its first 100 rows of the company feed the
   * certainty; a new row takes the next id). Once the company record is
   * found, every query and the new row use the record's own id. A candidate exists exactly when
   * the company is known, there are quotes, the signals were derived and
   * some analogue record passes the threshold.
   */
  function Forecast(market: Market, companyId: string, quotePage: seq<Quote>, signals: Signals, ps: seq<Prediction>, now: int): (plan: Plan)
    ensures plan.Raise? <==> companyId !in market.companies
    ensures plan.NoQuotes? <==> companyId in market.companies && quotePage == []
    ensures plan.DerivationFailed? <==> companyId in market.companies && quotePage != [] && signals.DerivationFailure?
    ensures plan.NoAnalogues? <==> companyId in market.companies && quotePage != [] && signals.Signals?
                                   && forall x :: x in PatternRecords(market, market.companies[companyId].id, signals) ==> !Analogues.IsWithinDifferenceFromAverage(signals.sentimentDifference, x)
    ensures plan.Candidate? ==>
              var c := plan.prediction;
              var company := market.companies[companyId];
              var last := quotePage[|quotePage| - 1];
              && c.id == |ps| && c.company == company.id && c.predictionDate == now
              && DuplicateReconciler.IsOpen(c) && c.actualChange.Null? && c.actualEarningPerShare.Null?
              && Some(c.predictedChange) == Analogues.PredictedChange(PatternRecords(market, company.id, signals), signals.sentimentDifference)
              && (c.direction == Up <==> c.predictedChange > 0.0)
              && (c.direction == Down <==> c.predictedChange < 0.0)
              && c.predictionDate + c.validityPeriod == Expiry(now)
              && 0.0 <= c.certainty <= 1.0
              && c.certainty == CertaintyEstimator.Certainty(CertaintyEstimator.History(ps, company.id), c.direction, now)
              && c.lastBid == last.bid && c.lastAsk == last.ask
              && c.predictedChangePercent == PercentChange(c.predictedChange, last.close)
              && c.potentialEarningPerShare == EarningPerShare(last.bid, last.ask, c.predictedChange)
              && c.potentialEarningPerShare >= 0.0
  {
    if companyId !in market.companies then Raise
    else if quotePage == [] then NoQuotes
    else if signals.DerivationFailure? then DerivationFailed
    else
      var company := market.companies[companyId];
      var records := PatternRecords(market, company.id, signals);
      var change := Analogues.PredictedChange(records, signals.sentimentDifference);
      Analogues.NoSurvivorMeansNoPrediction(records, signals.sentimentDifference);
      if change.Null? then NoAnalogues
      else
        Candidate(NewPrediction(|ps|, company.id, quotePage[|quotePage| - 1], change.value, ps, now))
  }

  /**
   * The new open row a run writes for `company` with the predicted change
   * `predicted`: the next id `id`, the last quote's bid and ask, the
   * direction, the expiry and the certainty over the store `ps`.
   */
  function NewPrediction(id: nat, company: string, lastQuote: Quote, predicted: real, ps: seq<Prediction>, now: int): (r: Prediction)
    ensures r.id == id && r.company == company && r.predictionDate == now && r.predictedChange == predicted
    ensures DuplicateReconciler.IsOpen(r) && r.actualChange.Null? && r.actualEarningPerShare.Null?
    ensures (r.direction == Up <==> predicted > 0.0) && (r.direction == Down <==> predicted < 0.0)
    ensures r.predictionDate + r.validityPeriod == Expiry(now) && !IsWeekend(Expiry(now))
    ensures DAY_MS <= r.validityPeriod <= 3 * DAY_MS
    ensures 0.0 <= r.certainty <= 1.0
    ensures r.certainty == CertaintyEstimator.Certainty(CertaintyEstimator.History(ps, company), r.direction, now)
    ensures r.lastBid == lastQuote.bid && r.lastAsk == lastQuote.ask
    ensures r.predictedChangePercent == PercentChange(predicted, lastQuote.close)
    ensures r.potentialEarningPerShare == EarningPerShare(lastQuote.bid, lastQuote.ask, predicted) >= 0.0
  {
    ValidityPeriodIsOneToThreeDays(now);
    var direction := DirectionOf(predicted);
    Prediction(
      id := id,
      company := company,
      predictionDate := now,
      validityPeriod := Expiry(now) - now,
      direction := direction,
      predictedChange := predicted,
      predictedChangePercent := PercentChange(predicted, lastQuote.close),
      certainty := CertaintyEstimator.Certainty(CertaintyEstimator.History(ps, company), direction, now),
      lastBid := lastQuote.bid,
      lastAsk := lastQuote.ask,
      potentialEarningPerShare := EarningPerShare(lastQuote.bid, lastQuote.ask, predicted),
      correct := Null,
      actualChange := Null,
      actualEarningPerShare := Null)
  }
}
