/**
 * The prediction store and the two jobs that work on it. Generation computes
 * one company's forecast and reconciles it with the open predictions;
 * validation grades every overdue open prediction against the realised
 * quotes and asks for the quote days it could not find. The store's rows, the
 * ids published on the prediction-generated topic and the messages sent to
 * the missing-quote-data queue are fields the jobs update in place.
 */
module Engine {
  import opened Domain
  import opened TradingCalendar
  import Analogues
  import CertaintyEstimator
  import DuplicateReconciler
  import Forecasting
  import Validation

  /**
   * Ids are positions, at most one open prediction exists per company,
   * direction and predicted change, and every published id names a row.
   */
  ghost predicate WellFormed(ps: seq<Prediction>, generated: seq<nat>) {
    && (forall i :: 0 <= i < |ps| ==> ps[i].id == i)
    && DuplicateReconciler.NoOpenDuplicates(ps)
    && (forall k :: k in generated ==> k < |ps|)
  }

  /** Settling the first `n` rows keeps the store well formed. */
  lemma SettleUpToKeepsWellFormed(market: Market, ps: seq<Prediction>, generated: seq<nat>, now: int, n: nat)
    requires WellFormed(ps, generated)
    requires n <= |ps|
    ensures WellFormed(Validation.SettleUpTo(market, ps, now, n), generated)
  {
    Validation.SettleUpToKeepsNoOpenDuplicates(market, ps, now, n);
  }

  class PredictionStore {
    /** The prediction rows in store order; a row's id is its position. */
    var predictions: seq<Prediction>
    /** Ids published on the prediction-generated topic, in order. */
    var generated: seq<nat>
    /** (exchange, day) pairs sent to the missing-quote-data queue, in order. */
    var missingQuoteData: seq<MissingData>

    ghost predicate Valid()
      reads this
    {
      WellFormed(predictions, generated)
    }

    constructor ()
      ensures Valid()
      ensures predictions == [] && generated == [] && missingQuoteData == []
    {
      predictions := [];
      generated := [];
      missingQuoteData := [];
    }

    /**
     * One generator run for `companyId` at `now`. `quotePage` is the result
     * of the quote query and `signals` what the quote and sentiment
     * utilities derived from it. Returns true when the run fails with a
     * runtime exception (an unknown company). The store becomes the
     * reconciliation of the forecast with the open predictions; an id is
     * published exactly when a new row is written.
     */
    method Generate(market: Market, companyId: string, quotePage: seq<Quote>, signals: Signals, now: int) returns (raised: bool)
      requires Valid()
      modifies this
      ensures Valid()
      ensures var plan := Forecasting.Forecast(market, companyId, quotePage, signals, old(predictions), now);
              && (raised <==> plan.Raise?)
              && (!plan.Candidate? ==> predictions == old(predictions) && generated == old(generated))
              && (plan.Candidate? ==>
                    var d := DuplicateReconciler.Reconcile(old(predictions), plan.prediction);
                    && predictions == DuplicateReconciler.Apply(old(predictions), plan.prediction, d)
                    && generated == old(generated) + (if d.CreateNew? then [plan.prediction.id] else []))
      ensures missingQuoteData == old(missingQuoteData)
    {
      var plan := PrepareCandidate(market, companyId, quotePage, signals, predictions, now);
      match plan {
        case Raise =>
          return true;
        case Candidate(prediction) =>
          Record(prediction);
          return false;
        case _ =>
          return false;
      }
    }

    /**
     * The generator's computation up to the reconciliation, step by step:
     * the company lookup, the quote check, the candidate values, the
     * direction, the expiry and the certainty over the store `ps`.
     */
    static method PrepareCandidate(market: Market, companyId: string, quotePage: seq<Quote>, signals: Signals, ps: seq<Prediction>, now: int)
      returns (plan: Forecasting.Plan)
      ensures plan == Forecasting.Forecast(market, companyId, quotePage, signals, ps, now)
    {
      if companyId !in market.companies {
        return Forecasting.Raise;
      }
      var company := market.companies[companyId];
      if |quotePage| == 0 {
        return Forecasting.NoQuotes;
      }
      var lastQuote := quotePage[|quotePage| - 1];
      if signals.DerivationFailure? {
        return Forecasting.DerivationFailed;
      }
      var records := Forecasting.PatternRecords(market, company.id, signals);
      var change := AverageOfCandidates(records, signals.sentimentDifference);
      if change.Null? {
        return Forecasting.NoAnalogues;
      }
      var prediction := NewRow(|ps|, company.id, lastQuote, change.value, ps, now);
      return Forecasting.Candidate(prediction);
    }

    /**
     * The new row's fields as the generator sets them: the next id, the
     * direction and expiry, the percent change, the certainty over `ps`,
     * the last bid and ask and the potential earning per share.
     */
    static method NewRow(id: nat, company: string, lastQuote: Quote, predicted: real, ps: seq<Prediction>, now: int)
      returns (prediction: Prediction)
      ensures prediction == Forecasting.NewPrediction(id, company, lastQuote, predicted, ps, now)
    {
      var predictedPercent := Forecasting.PercentChange(predicted, lastQuote.close);
      var direction := DirectionFor(predicted);
      var endDate := ExpiryFor(now);
      var certainty := CertaintyEstimator.Certainty(CertaintyEstimator.History(ps, company), direction, now);
      prediction := Prediction(
        id := id,
        company := company,
        predictionDate := now,
        validityPeriod := endDate - now,
        direction := direction,
        predictedChange := predicted,
        predictedChangePercent := predictedPercent,
        certainty := certainty,
        lastBid := lastQuote.bid,
        lastAsk := lastQuote.ask,
        potentialEarningPerShare := Abs(lastQuote.bid - (lastQuote.ask - predicted)),
        correct := Null,
        actualChange := Null,
        actualEarningPerShare := Null);
    }

    /** None, replaced by Up for a rise and by Down for a fall. */
    static method DirectionFor(predicted: real) returns (direction: Direction)
      ensures direction == Forecasting.DirectionOf(predicted)
    {
      direction := None;
      if predicted > 0.0 {
        direction := Up;
      }
      if predicted < 0.0 {
        direction := Down;
      }
    }

    /** One day after `now`, moved on two days from a Saturday and one from a Sunday. */
    static method ExpiryFor(now: int) returns (endDate: int)
      ensures endDate == Forecasting.Expiry(now)
    {
      endDate := PlusDays(now, 1);
      if DayOfWeek(endDate) == SATURDAY {
        endDate := PlusDays(endDate, 2);
      }
      if DayOfWeek(endDate) == SUNDAY {
        endDate := PlusDays(endDate, 1);
      }
    }

    /**
     * The three stream pipelines over the records that pass the threshold,
     * the candidate list built by conditional appends, and its average.
     */
    static method AverageOfCandidates(records: seq<LearningModelRecord>, sentimentDifference: real) returns (change: Option<real>)
      ensures change == Analogues.PredictedChange(records, sentimentDifference)
    {
      var survivors := Analogues.SurvivingChanges(records, sentimentDifference);
      var averageBelow := Analogues.Average(survivors);
      var maxBelow := Analogues.Maximum(survivors);
      var averageAbove := Analogues.Average(survivors);

      var valuesToAverage: seq<real> := [];
      if averageBelow.Some? {
        valuesToAverage := valuesToAverage + [averageBelow.value];
      }
      if maxBelow.Some? {
        valuesToAverage := valuesToAverage + [maxBelow.value];
      }
      if averageAbove.Some? {
        valuesToAverage := valuesToAverage + [averageAbove.value];
      }
      assert valuesToAverage == Analogues.CandidateValues(survivors);
      if |valuesToAverage| == 0 {
        return Null;
      }
      return Analogues.Average(valuesToAverage);
    }

    /**
     * The generator's last step: the open predictions are scanned in store
     * order; the first one with the candidate's company, direction and
     * predicted change ends the run, after its certainty is brought up to
     * date when it differs. Without one the candidate is written as a new
     * row and its id is published.
     */
    method Record(prediction: Prediction)
      requires Valid()
      requires DuplicateReconciler.IsOpen(prediction) && prediction.id == |predictions|
      modifies this
      ensures Valid()
      ensures var d := DuplicateReconciler.Reconcile(old(predictions), prediction);
              && predictions == DuplicateReconciler.Apply(old(predictions), prediction, d)
              && generated == old(generated) + (if d.CreateNew? then [prediction.id] else [])
      ensures missingQuoteData == old(missingQuoteData)
    {
      DuplicateReconciler.ReconcileKeepsNoOpenDuplicates(predictions, prediction);
      var i := 0;
      while i < |predictions|
        invariant 0 <= i <= |predictions|
        invariant predictions == old(predictions) && generated == old(generated)
        invariant forall j :: 0 <= j < i ==> !DuplicateReconciler.IsOpenDuplicate(predictions[j], prediction)
      {
        var openPrediction := predictions[i];
        if DuplicateReconciler.IsOpenDuplicate(openPrediction, prediction) {
          if openPrediction.certainty == prediction.certainty {
            return;
          } else {
            predictions := predictions[i := openPrediction.(certainty := prediction.certainty)];
            return;
          }
        }
        i := i + 1;
      }
      predictions := predictions + [prediction];
      generated := generated + [prediction.id];
    }

    /**
     * One validator run at `now`. Every overdue open prediction is examined
     * in store order: resolved ones are graded in place, and each missing
     * quote day is collected once. Returns true when the run fails on a
     * prediction whose company or exchange is unknown: the predictions
     * before it stay graded and nothing is sent. Otherwise every collected
     * (exchange, day) pair is sent to the queue exactly once.
     */
    method ValidateAll(market: Market, now: int) returns (raised: bool)
      requires Valid()
      modifies this
      ensures Valid()
      ensures generated == old(generated)
      ensures |old(missingQuoteData)| <= |missingQuoteData|
      ensures missingQuoteData[..|old(missingQuoteData)|] == old(missingQuoteData)
      ensures var ps := old(predictions);
              var stop := Validation.FirstRaise(market, ps, now, 0);
              && (raised <==> stop.Some?)
              && predictions == Validation.SettleUpTo(market, ps, now, if stop.Some? then stop.value else |ps|)
      ensures raised ==> missingQuoteData == old(missingQuoteData)
      ensures !raised ==>
                var sent := missingQuoteData[|old(missingQuoteData)|..];
                && (forall m :: m in sent <==> m in Validation.MissingRequests(market, old(predictions), now, |old(predictions)|))
                && (forall i, j :: 0 <= i < j < |sent| ==> sent[i] != sent[j])
    {
      var pending;
      raised, pending := Scan(market, now);
      if !raised {
        Send(pending);
      }
    }

    /**
     * The scan of a validator run: the predictions are examined in store
     * order, resolved ones are graded in place and missing days are
     * collected, until the end or the first prediction that fails the run.
     */
    method Scan(market: Market, now: int) returns (raised: bool, pending: set<MissingData>)
      requires Valid()
      modifies this
      ensures Valid()
      ensures generated == old(generated) && missingQuoteData == old(missingQuoteData)
      ensures var ps := old(predictions);
              var stop := Validation.FirstRaise(market, ps, now, 0);
              && (raised <==> stop.Some?)
              && predictions == Validation.SettleUpTo(market, ps, now, if stop.Some? then stop.value else |ps|)
      ensures !raised ==> pending == Validation.MissingRequests(market, old(predictions), now, |old(predictions)|)
    {
      var rows;
      raised, rows, pending := SettleRows(market, predictions, now);
      ghost var stop := Validation.FirstRaise(market, predictions, now, 0);
      SettleUpToKeepsWellFormed(market, predictions, generated, now, if stop.Some? then stop.value else |predictions|);
      predictions := rows;
    }

    /**
     * The scan over the rows `ps`, in store order: resolved rows are graded,
     * missing days are collected, until the end or the first row that fails
     * the run; the rows before that one stay graded.
     */
    static method SettleRows(market: Market, ps: seq<Prediction>, now: int)
      returns (raised: bool, rows: seq<Prediction>, pending: set<MissingData>)
      ensures var stop := Validation.FirstRaise(market, ps, now, 0);
              && (raised <==> stop.Some?)
              && rows == Validation.SettleUpTo(market, ps, now, if stop.Some? then stop.value else |ps|)
      ensures !raised ==> pending == Validation.MissingRequests(market, ps, now, |ps|)
    {
      rows, pending := ps, {};
      var i := 0;
      while i < |ps|
        invariant 0 <= i <= |ps|
        invariant rows == Validation.SettleUpTo(market, ps, now, i)
        invariant Validation.FirstRaise(market, ps, now, 0) == Validation.FirstRaise(market, ps, now, i)
        invariant pending == Validation.MissingRequests(market, ps, now, i)
      {
        raised, rows, pending := SettleRow(market, now, ps, rows, i, pending);
        if raised {
          return;
        }
        i := i + 1;
      }
      raised := false;
    }

    /**
     * The scan's work on row `i` of `rows`, the rows `ps` it started from
     * with the first `i` settled: a graded row replaces the stored one, a
     * missing day joins the set, and an unknown company or exchange stops
     * the scan with the rows as they are.
     */
    static method SettleRow(market: Market, now: int, ghost ps: seq<Prediction>, rows: seq<Prediction>, i: nat, pending: set<MissingData>)
      returns (raised: bool, settled: seq<Prediction>, collected: set<MissingData>)
      requires i < |ps|
      requires rows == Validation.SettleUpTo(market, ps, now, i)
      requires pending == Validation.MissingRequests(market, ps, now, i)
      ensures raised <==> Validation.Examine(market, ps[i], now).Raise?
      ensures raised ==> settled == rows
      ensures !raised ==> settled == Validation.SettleUpTo(market, ps, now, i + 1)
      ensures !raised ==> collected == Validation.MissingRequests(market, ps, now, i + 1)
    {
      var verdict := ExaminePrediction(market, rows[i], now);
      Validation.ScanStep(market, ps, now, i);
      settled, collected := rows, pending;
      raised := false;
      match verdict {
        case Skip =>
        case Raise =>
          raised := true;
        case Missing(request) =>
          collected := pending + {request};
        case Resolved(graded) =>
          settled := rows[i := graded];
      }
    }

    /**
     * The examination of one prediction, step by step: only an open,
     * overdue prediction is looked at; an unknown company or exchange fails
     * the run; a missing start quote asks for the start day before the end
     * is looked at; a missing end quote asks for the end day; otherwise the
     * prediction is graded.
     */
    static method ExaminePrediction(market: Market, prediction: Prediction, now: int) returns (verdict: Validation.Verdict)
      ensures verdict == Validation.Examine(market, prediction, now)
    {
      if !(DuplicateReconciler.IsOpen(prediction) && Validation.IsOverdue(prediction, now)) {
        return Validation.Skip;
      }
      if prediction.company !in market.companies {
        return Validation.Raise;
      }
      var company := market.companies[prediction.company];
      if company.exchange !in market.exchanges {
        return Validation.Raise;
      }
      var exchange := market.exchanges[company.exchange];

      var startDate := StartDateFor(prediction);
      var quoteAtPrediction := Validation.QuoteAtDate(market.quotes, exchange, company.id, startDate);
      if quoteAtPrediction.Null? {
        assert Validation.Examine(market, prediction, now) == Validation.Missing(MissingData(company.exchange, Midnight(startDate)));
        return Validation.Missing(MissingData(company.exchange, Midnight(startDate)));
      }

      var endDate := EndDateFor(prediction);
      var quoteAtEnd := Validation.QuoteAtDate(market.quotes, exchange, company.id, endDate);
      if quoteAtEnd.Null? {
        assert Validation.Examine(market, prediction, now) == Validation.Missing(MissingData(company.exchange, Midnight(endDate)));
        return Validation.Missing(MissingData(company.exchange, Midnight(endDate)));
      }

      var open, close := quoteAtPrediction.value.open, quoteAtEnd.value.close;
      var quoteDirection := QuoteDirectionFor(open, close);
      var actualChange := close - open;
      var graded := prediction.(
        correct := Some(quoteDirection == prediction.direction),
        actualChange := Some(actualChange),
        actualEarningPerShare := Some(Abs(prediction.lastBid - (prediction.lastAsk - actualChange))));
      assert graded == Validation.Grade(prediction, quoteAtPrediction.value, quoteAtEnd.value);
      return Validation.Resolved(graded);
    }

    /** The prediction date, moved back to Friday from a Saturday or a Sunday. */
    static method StartDateFor(prediction: Prediction) returns (startDate: int)
      ensures startDate == Validation.StartDate(prediction)
    {
      startDate := prediction.predictionDate;
      if DayOfWeek(startDate) == SATURDAY {
        startDate := MinusDays(startDate, 1);
      }
      if DayOfWeek(startDate) == SUNDAY {
        startDate := MinusDays(startDate, 2);
      }
    }

    /** The expiry (date plus the narrowed validity period), moved on to Monday from a weekend. */
    static method EndDateFor(prediction: Prediction) returns (endDate: int)
      ensures endDate == Validation.EndDate(prediction)
    {
      endDate := prediction.predictionDate + IntValue(prediction.validityPeriod);
      if DayOfWeek(endDate) == SATURDAY {
        endDate := PlusDays(endDate, 2);
      }
      if DayOfWeek(endDate) == SUNDAY {
        endDate := PlusDays(endDate, 1);
      }
    }

    /** Down when the price fell from `open` to `close`, Up when it rose, None when it stayed. */
    static method QuoteDirectionFor(open: real, close: real) returns (quoteDirection: Direction)
      ensures quoteDirection == Validation.ActualDirection(open, close)
    {
      quoteDirection := None;
      if open > close {
        quoteDirection := Down;
      }
      if open < close {
        quoteDirection := Up;
      }
      if open == close {
        quoteDirection := None;
      }
    }

    /** Sends every pair of `pending` to the missing-quote-data queue once, in some order. */
    method Send(pending: set<MissingData>)
      modifies this
      ensures predictions == old(predictions) && generated == old(generated)
      ensures |old(missingQuoteData)| <= |missingQuoteData|
      ensures missingQuoteData[..|old(missingQuoteData)|] == old(missingQuoteData)
      ensures var sent := missingQuoteData[|old(missingQuoteData)|..];
              && (forall m :: m in sent <==> m in pending)
              && (forall i, j :: 0 <= i < j < |sent| ==> sent[i] != sent[j])
    {
      var rest := pending;
      ghost var sent: seq<MissingData> := [];
      while rest != {}
        invariant rest <= pending
        invariant predictions == old(predictions) && generated == old(generated)
        invariant missingQuoteData == old(missingQuoteData) + sent
        invariant forall m :: m in sent <==> m in pending - rest
        invariant forall a, b :: 0 <= a < b < |sent| ==> sent[a] != sent[b]
        decreases rest
      {
        var m :| m in rest;
        assert m !in sent;
        missingQuoteData := missingQuoteData + [m];
        sent := sent + [m];
        rest := rest - {m};
      }
      assert missingQuoteData[|old(missingQuoteData)|..] == sent;
    }

  }

  /**
   * Running the generator twice with the same inputs at the same instant
   * writes nothing the second time: the first run leaves an open row with
   * the forecast's direction, change and certainty (new, updated or already
   * there), the second forecast has the same certainty because only
   * validated rows count, and so the second reconciliation discards.
   */
  lemma GenerateTwiceWritesNothing(market: Market, companyId: string, quotePage: seq<Quote>, signals: Signals, ps: seq<Prediction>, now: int)
    requires Forecasting.Forecast(market, companyId, quotePage, signals, ps, now).Candidate?
    ensures var c := Forecasting.Forecast(market, companyId, quotePage, signals, ps, now).prediction;
            var after := DuplicateReconciler.Apply(ps, c, DuplicateReconciler.Reconcile(ps, c));
            var again := Forecasting.Forecast(market, companyId, quotePage, signals, after, now);
            again.Candidate? && DuplicateReconciler.Reconcile(after, again.prediction).Discard?
  {
    var c := Forecasting.Forecast(market, companyId, quotePage, signals, ps, now).prediction;
    var d := DuplicateReconciler.Reconcile(ps, c);
    var after := DuplicateReconciler.Apply(ps, c, d);
    ReconcileChangesOnlyOpenRows(ps, c);
    ForecastSeesOnlyValidatedRows(market, companyId, quotePage, signals, ps, after, now);
    var again := Forecasting.Forecast(market, companyId, quotePage, signals, after, now);
    DuplicateReconciler.ReconcileTwiceDiscards(ps, c, again.prediction);
  }

  /** Reconciling an open candidate changes or appends open rows only. */
  lemma ReconcileChangesOnlyOpenRows(ps: seq<Prediction>, c: Prediction)
    requires DuplicateReconciler.IsOpen(c)
    ensures CertaintyEstimator.OnlyOpenChanged(ps, DuplicateReconciler.Apply(ps, c, DuplicateReconciler.Reconcile(ps, c)))
  {
    var d := DuplicateReconciler.Reconcile(ps, c);
    var after := DuplicateReconciler.Apply(ps, c, d);
    if d.UpdateCertainty? {
      assert forall i :: 0 <= i < |ps| && i != d.index ==> after[i] == ps[i];
    }
  }

  /**
   * Changing open rows in place or appending open rows leaves the forecast
   * unchanged, up to the new row's id: the certainty reads validated rows
   * only, and neither change moves a validated row out of the page of 100.
   */
  lemma ForecastSeesOnlyValidatedRows(market: Market, companyId: string, quotePage: seq<Quote>, signals: Signals, before: seq<Prediction>, after: seq<Prediction>, now: int)
    requires Forecasting.Forecast(market, companyId, quotePage, signals, before, now).Candidate?
    requires CertaintyEstimator.OnlyOpenChanged(before, after)
    ensures var c := Forecasting.Forecast(market, companyId, quotePage, signals, before, now).prediction;
            var again := Forecasting.Forecast(market, companyId, quotePage, signals, after, now);
            again.Candidate? && again.prediction == c.(id := |after|)
  {
    var c := Forecasting.Forecast(market, companyId, quotePage, signals, before, now).prediction;
    var company := market.companies[companyId];
    CertaintyEstimator.CertaintyIgnoresOpenPredictions(before, after, company.id, c.direction, now);
  }

  /**
   * A row the generator writes is overdue for the validator exactly once
   * its expiry has passed: its validity period fits in an int, so the
   * validator's narrowing does not shift the expiry.
   */
  lemma GeneratedRowIsOverdueAfterExpiry(market: Market, companyId: string, quotePage: seq<Quote>, signals: Signals, ps: seq<Prediction>, now: int, later: int)
    requires Forecasting.Forecast(market, companyId, quotePage, signals, ps, now).Candidate?
    ensures var c := Forecasting.Forecast(market, companyId, quotePage, signals, ps, now).prediction;
            Validation.IsOverdue(c, later) <==> Forecasting.Expiry(now) < later
  {
    Forecasting.ValidityPeriodIsOneToThreeDays(now);
  }
}
