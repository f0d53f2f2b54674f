/**
 * The records the prediction engine reads and writes. Prices, changes and
 * certainties are reals; instants are milliseconds since the epoch (see
 * TradingCalendar).
 */
module Domain {

  /** A Java reference that may be null. */
  datatype Option<T> = Null | Some(value: T)

  /** The three-valued market direction of the data model. */
  datatype Direction = Up | Down | None

  /** A stored price sample; `intraday` is false for an end-of-day quote. */
  datatype Quote = Quote(
    company: string,
    date: int,
    open: real,
    close: real,
    bid: real,
    ask: real,
    intraday: bool)

  datatype Company = Company(id: string, exchange: string)

  datatype Exchange = Exchange(id: string, intraday: bool)

  /** A precomputed historical analogue: a pattern and what followed it. */
  datatype LearningModelRecord = LearningModelRecord(
    company: string,
    previousQuoteDirection: Direction,
    previousSentimentDirection: Direction,
    lastSentimentDifferenceFromAverage: real,
    resultingQuoteChange: real)

  /**
   * A forecast. `correct`, `actualChange` and `actualEarningPerShare` stay
   * Null while the prediction is open. `predictedChangePercent` is Null when
   * the last close was zero (the double division then gives no finite value).
   */
  datatype Prediction = Prediction(
    id: nat,
    company: string,
    predictionDate: int,
    validityPeriod: int,
    direction: Direction,
    predictedChange: real,
    predictedChangePercent: Option<real>,
    certainty: real,
    lastBid: real,
    lastAsk: real,
    potentialEarningPerShare: real,
    correct: Option<bool>,
    actualChange: Option<real>,
    actualEarningPerShare: Option<real>)

  /** A request for the quotes of one exchange on one day (a midnight). */
  datatype MissingData = MissingData(exchange: string, date: int)

  /** The read-only contents of the company, exchange, quote and learning-model stores. */
  datatype Market = Market(
    companies: map<string, Company>,
    exchanges: map<string, Exchange>,
    quotes: seq<Quote>,
    learningRecords: seq<LearningModelRecord>)

  /**
   * What the external quote and sentiment utilities derive for one company:
   * the previous price direction, the previous sentiment direction and the
   * latest sentiment's difference from the average, or the domain exception
   * (QuotePriceCalculationException or SentimentException) one of them raised.
   */
  datatype Signals =
    | Signals(previousQuoteDirection: Direction, previousSentimentDirection: Direction, sentimentDifference: real)
    | DerivationFailure

  function Abs(x: real): (r: real)
    ensures r >= 0.0
    ensures r == x || r == -x
  {
    if x < 0.0 then -x else x
  }
}
