/**
 * The situations the repository's own tests set up, stated as lemmas about
 * the model: one analogue record, a history of correct predictions, a
 * repeated run, and a prediction of 2016-03-01 graded against its quotes.
 */
module Scenarios {
  import opened Domain
  import opened TradingCalendar
  import Analogues
  import CertaintyEstimator
  import DuplicateReconciler
  import Forecasting
  import Validation
  import Engine

  const COMPANY: string := "company"
  const EXCHANGE: string := "exchange"

  /** 2016-03-01T00:00 UTC, a Tuesday. */
  const MARCH_1_2016: int := 1_456_790_400_000

  /** The analogue every generator test stores: Down/Down, difference -5, change -2. */
  const RECORD: LearningModelRecord := LearningModelRecord(COMPANY, Down, Down, -5.0, -2.0)

  function GeneratorMarket(): Market {
    Market(map[COMPANY := Company(COMPANY, EXCHANGE)], map[EXCHANGE := Exchange(EXCHANGE, false)], [], [RECORD])
  }

  /** A validated, correct Down prediction made two days before `now`. */
  function CorrectPrediction(id: nat, now: int): Prediction {
    Prediction(id, COMPANY, MinusDays(now, 2), 0, Down, 0.0, Null, 0.0, 0.0, 0.0, 0.0, Some(true), Null, Null)
  }

  /** `n` correct predictions with ids 0 .. n-1. */
  function CorrectPredictions(n: nat, now: int): (ps: seq<Prediction>)
    ensures |ps| == n
    ensures forall i :: 0 <= i < n ==> ps[i] == CorrectPrediction(i, now)
  {
    seq(n, i requires 0 <= i < n => CorrectPrediction(i, now))
  }

  lemma CorrectHistory(n: nat, now: int)
    requires n <= CertaintyEstimator.HISTORY_PAGE_SIZE
    ensures var ps := CorrectPredictions(n, now);
            var matching := CertaintyEstimator.MatchingPredictions(CertaintyEstimator.History(ps, COMPANY), Down, now);
            |matching| == n && CertaintyEstimator.CorrectCount(matching) == n
  {
    var ps := CorrectPredictions(n, now);
    CompanyPredictionsOfOneCompany(ps);
    MatchingOfCorrect(ps, now);
  }

  lemma {:induction false} CompanyPredictionsOfOneCompany(ps: seq<Prediction>)
    requires forall i :: 0 <= i < |ps| ==> ps[i].company == COMPANY
    ensures CertaintyEstimator.CompanyPredictions(ps, COMPANY) == ps
  {
    if |ps| > 0 {
      CompanyPredictionsOfOneCompany(ps[1..]);
    }
  }

  lemma {:induction false} MatchingOfCorrect(ps: seq<Prediction>, now: int)
    requires forall i :: 0 <= i < |ps| ==> ps[i] == CorrectPrediction(ps[i].id, now)
    ensures var matching := CertaintyEstimator.MatchingPredictions(ps, Down, now);
            matching == ps && CertaintyEstimator.CorrectCount(matching) == |ps|
  {
    if |ps| > 0 {
      MatchingOfCorrect(ps[1..], now);
      assert CertaintyEstimator.IsComparable(ps[0], Down, now);
    }
  }

  /**
   * With the single analogue, any sentiment difference above -5 and the
   * given `history` of the company, the generator proposes a Down move of
   * exactly -2.
   */
  lemma SingleAnalogueForecast(quotePage: seq<Quote>, difference: real, ps: seq<Prediction>, now: int)
    requires quotePage != [] && difference > -5.0
    ensures var plan := Forecasting.Forecast(GeneratorMarket(), COMPANY, quotePage, Signals(Down, Down, difference), ps, now);
            && plan.Candidate?
            && plan.prediction.predictedChange == -2.0 && plan.prediction.direction == Down
            && plan.prediction.certainty == CertaintyEstimator.Certainty(CertaintyEstimator.History(ps, COMPANY), Down, now)
  {
    var market := GeneratorMarket();
    var signals := Signals(Down, Down, difference);
    var records := Forecasting.PatternRecords(market, COMPANY, signals);
    assert RECORD in records;
    Analogues.PredictedChangeOfAgreeingAnalogues(records, difference, -2.0);
  }

  /** Without earlier predictions the certainty is the 0.5 guess. */
  lemma FirstPredictionHasGuessCertainty(quotePage: seq<Quote>, difference: real, now: int)
    requires quotePage != [] && difference > -5.0
    ensures var plan := Forecasting.Forecast(GeneratorMarket(), COMPANY, quotePage, Signals(Down, Down, difference), [], now);
            plan.Candidate? && plan.prediction.certainty == 0.5 && plan.prediction.predictedChange == -2.0
  {
    SingleAnalogueForecast(quotePage, difference, [], now);
  }

  /** After four correct Down predictions the certainty is 1.0. */
  lemma FourCorrectPredictionsGiveFullCertainty(quotePage: seq<Quote>, difference: real, now: int)
    requires quotePage != [] && difference > -5.0
    ensures var plan := Forecasting.Forecast(GeneratorMarket(), COMPANY, quotePage, Signals(Down, Down, difference), CorrectPredictions(4, now), now);
            plan.Candidate? && plan.prediction.certainty == 1.0 && plan.prediction.id == 4
  {
    var ps := CorrectPredictions(4, now);
    SingleAnalogueForecast(quotePage, difference, ps, now);
    CorrectHistory(4, now);
    CertaintyEstimator.CertaintyIsHitRate(CertaintyEstimator.History(ps, COMPANY), Down, now);
  }

  /** After one correct Down prediction the perfect but short record gives 0.6. */
  lemma OneCorrectPredictionGivesLowerCertainty(quotePage: seq<Quote>, difference: real, now: int)
    requires quotePage != [] && difference > -5.0
    ensures var plan := Forecasting.Forecast(GeneratorMarket(), COMPANY, quotePage, Signals(Down, Down, difference), CorrectPredictions(1, now), now);
            plan.Candidate? && plan.prediction.certainty == 0.6
  {
    var ps := CorrectPredictions(1, now);
    SingleAnalogueForecast(quotePage, difference, ps, now);
    CorrectHistory(1, now);
    CertaintyEstimator.CertaintyIsHitRate(CertaintyEstimator.History(ps, COMPANY), Down, now);
  }

  /** The first run after four correct predictions writes a fifth row, with certainty 1.0. */
  lemma FirstRunAppendsFifthRow(quotePage: seq<Quote>, difference: real, now: int)
    requires quotePage != [] && difference > -5.0
    ensures var ps := CorrectPredictions(4, now);
            var c := Forecasting.Forecast(GeneratorMarket(), COMPANY, quotePage, Signals(Down, Down, difference), ps, now).prediction;
            var d := DuplicateReconciler.Reconcile(ps, c);
            var after := DuplicateReconciler.Apply(ps, c, d);
            && d.CreateNew? && |after| == 5 && after[4] == c && c.certainty == 1.0
  {
    var ps := CorrectPredictions(4, now);
    FourCorrectPredictionsGiveFullCertainty(quotePage, difference, now);
    var c := Forecasting.Forecast(GeneratorMarket(), COMPANY, quotePage, Signals(Down, Down, difference), ps, now).prediction;
    WithoutOpenRowsACandidateIsAppended(ps, c);
  }

  /** A second identical run, against the five rows the first one left, discards its forecast. */
  lemma SecondRunDiscards(quotePage: seq<Quote>, difference: real, now: int)
    requires quotePage != [] && difference > -5.0
    ensures var ps := CorrectPredictions(4, now);
            var signals := Signals(Down, Down, difference);
            var c := Forecasting.Forecast(GeneratorMarket(), COMPANY, quotePage, signals, ps, now).prediction;
            var after := DuplicateReconciler.Apply(ps, c, DuplicateReconciler.Reconcile(ps, c));
            var again := Forecasting.Forecast(GeneratorMarket(), COMPANY, quotePage, signals, after, now);
            again.Candidate? && DuplicateReconciler.Reconcile(after, again.prediction).Discard?
  {
    SingleAnalogueForecast(quotePage, difference, CorrectPredictions(4, now), now);
    Engine.GenerateTwiceWritesNothing(GeneratorMarket(), COMPANY, quotePage, Signals(Down, Down, difference), CorrectPredictions(4, now), now);
  }

  lemma WithoutOpenRowsACandidateIsAppended(ps: seq<Prediction>, c: Prediction)
    requires forall j :: 0 <= j < |ps| ==> ps[j].correct.Some?
    ensures DuplicateReconciler.Reconcile(ps, c).CreateNew?
    ensures DuplicateReconciler.Apply(ps, c, DuplicateReconciler.CreateNew) == ps + [c]
  {
    assert forall j :: 0 <= j < |ps| ==> !DuplicateReconciler.IsOpen(ps[j]);
  }

  /** The validator tests' prediction: Down, made 2016-03-01 midnight, bid 100, ask 102. */
  function ValidatorPrediction(validityPeriod: int): Prediction {
    Prediction(0, COMPANY, MARCH_1_2016, validityPeriod, Down, 0.0, Null, 0.0, 100.0, 102.0, 0.0, Null, Null, Null)
  }

  function ValidatorMarket(quotes: seq<Quote>): Market {
    Market(map[COMPANY := Company(COMPANY, EXCHANGE)], map[EXCHANGE := Exchange(EXCHANGE, false)], quotes, [])
  }

  const START_QUOTE: Quote := Quote(COMPANY, MARCH_1_2016, 100.0, 0.0, 0.0, 0.0, false)
  const END_QUOTE: Quote := Quote(COMPANY, MARCH_1_2016 + DAY_MS, 0.0, 98.0, 0.0, 0.0, false)

  lemma March1IsTuesday()
    ensures DayOfWeek(MARCH_1_2016) == 2 && DayOfWeek(MARCH_1_2016 + DAY_MS) == 3
    ensures Midnight(MARCH_1_2016) == MARCH_1_2016 && Midnight(MARCH_1_2016 + DAY_MS) == MARCH_1_2016 + DAY_MS
  {
  }

  /** Without a quote on the start day the prediction stays open and that day is requested. */
  lemma NoStartQuoteRequestsStartDay(now: int)
    requires now > MARCH_1_2016 + 100_000
    ensures var p := ValidatorPrediction(100_000);
            Validation.Examine(ValidatorMarket([]), p, now) == Validation.Missing(MissingData(EXCHANGE, MARCH_1_2016))
            && Validation.Settle(ValidatorMarket([]), p, now) == p
  {
    March1IsTuesday();
  }

  /** With the start quote but no end quote, the end day is requested. */
  lemma NoEndQuoteRequestsEndDay(now: int)
    requires now > MARCH_1_2016 + DAY_MS
    ensures var p := ValidatorPrediction(DAY_MS);
            var market := ValidatorMarket([START_QUOTE]);
            Validation.Examine(market, p, now) == Validation.Missing(MissingData(EXCHANGE, MARCH_1_2016 + DAY_MS))
            && Validation.Settle(market, p, now) == p
  {
    March1IsTuesday();
    var p := ValidatorPrediction(DAY_MS);
    assert Validation.StartDate(p) == MARCH_1_2016;
    assert Validation.EndDate(p) == MARCH_1_2016 + DAY_MS;
  }

  /**
   * Open 100 on 2016-03-01 and close 98 on 2016-03-02: the Down prediction
   * is correct, the actual change is -2 and the earning per share 4.
   */
  lemma ValidDataGradesCorrectly(now: int)
    requires now > MARCH_1_2016 + DAY_MS
    ensures var p := ValidatorPrediction(DAY_MS);
            Validation.Settle(ValidatorMarket([START_QUOTE, END_QUOTE]), p, now)
              == p.(correct := Some(true), actualChange := Some(-2.0), actualEarningPerShare := Some(4.0))
  {
    March1IsTuesday();
    var p := ValidatorPrediction(DAY_MS);
    var market := ValidatorMarket([START_QUOTE, END_QUOTE]);
    assert Validation.StartDate(p) == MARCH_1_2016;
    assert Validation.EndDate(p) == MARCH_1_2016 + DAY_MS;
    assert Validation.QuoteAtDate(market.quotes, market.exchanges[EXCHANGE], COMPANY, MARCH_1_2016) == Some(START_QUOTE);
    assert Validation.QuoteAtDate(market.quotes, market.exchanges[EXCHANGE], COMPANY, MARCH_1_2016 + DAY_MS) == Some(END_QUOTE);
  }
}
