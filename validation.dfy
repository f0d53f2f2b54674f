/**
 * The decision rules of prediction validation: when an open prediction is
 * overdue, which dates its outcome is measured between, where the realised
 * quotes come from, how the outcome is graded, and what one prediction's
 * examination yields in a validator run.
 */
module Validation {
  import opened Domain
  import opened TradingCalendar
  import DuplicateReconciler

  /**
   * Creation plus intValue() of the validity period, in milliseconds: at
   * most about 24.8 days either side of creation, and exactly creation plus
   * the period when the period fits in an int.
   */
  function ExpiryOf(p: Prediction): (e: int)
    ensures -TWO_POW_31 <= e - p.predictionDate < TWO_POW_31
    ensures -TWO_POW_31 <= p.validityPeriod < TWO_POW_31 ==> e == p.predictionDate + p.validityPeriod
  {
    p.predictionDate + IntValue(p.validityPeriod)
  }

  /**
   * The expiry lies strictly before now; for a validity period that fits in
   * an int, creation plus the period lies strictly before now.
   */
  predicate IsOverdue(p: Prediction, now: int)
    ensures -TWO_POW_31 <= p.validityPeriod < TWO_POW_31 ==> (IsOverdue(p, now) <==> p.predictionDate + p.validityPeriod < now)
  {
    ExpiryOf(p) < now
  }

  /** The creation instant rolled backward off a weekend. */
  function StartDate(p: Prediction): (d: int)
    ensures !IsWeekend(d)
    ensures d <= p.predictionDate
    ensures exists k :: 0 <= k <= 2 && d == MinusDays(p.predictionDate, k)
    ensures !IsWeekend(p.predictionDate) ==> d == p.predictionDate
    ensures IsWeekend(p.predictionDate) ==> DayOfWeek(d) == 5
  {
    RollBackwardIsPreviousBusinessDay(p.predictionDate);
    RollBackward(p.predictionDate)
  }

  /** The expiry rolled forward off a weekend. */
  function EndDate(p: Prediction): (d: int)
    ensures !IsWeekend(d)
    ensures ExpiryOf(p) <= d
    ensures exists k :: 0 <= k <= 2 && d == PlusDays(ExpiryOf(p), k)
    ensures !IsWeekend(ExpiryOf(p)) ==> d == ExpiryOf(p)
    ensures IsWeekend(ExpiryOf(p)) ==> DayOfWeek(d) == 1
  {
    RollForwardIsNextBusinessDay(ExpiryOf(p));
    RollForward(ExpiryOf(p))
  }

  predicate IsEndOfDayQuoteOf(q: Quote, company: string) {
    q.company == company && !q.intraday
  }

  /**
   * The query for the latest end-of-day quote strictly before `date`
   * (descending by date, first page of one; among equal dates the first in
   * store order).
   */
  function LatestBefore(quotes: seq<Quote>, company: string, date: int): (r: Option<Quote>)
    ensures r.Some? ==> r.value in quotes && IsEndOfDayQuoteOf(r.value, company) && r.value.date < date
    ensures r.Some? ==> forall q :: q in quotes && IsEndOfDayQuoteOf(q, company) && q.date < date ==> q.date <= r.value.date
    ensures r.Null? <==> forall q :: q in quotes && IsEndOfDayQuoteOf(q, company) ==> date <= q.date
  {
    if |quotes| == 0 then Null
    else
      var rest := LatestBefore(quotes[1..], company, date);
      var q := quotes[0];
      if IsEndOfDayQuoteOf(q, company) && q.date < date && (rest.Null? || rest.value.date <= q.date) then Some(q)
      else rest
  }

  /** The query for the end-of-day quote dated exactly `day` (the first in store order). */
  function QuoteOnDay(quotes: seq<Quote>, company: string, day: int): (r: Option<Quote>)
    ensures r.Some? ==> r.value in quotes && IsEndOfDayQuoteOf(r.value, company) && r.value.date == day
    ensures r.Null? <==> forall q :: q in quotes && IsEndOfDayQuoteOf(q, company) ==> q.date != day
  {
    if |quotes| == 0 then Null
    else if IsEndOfDayQuoteOf(quotes[0], company) && quotes[0].date == day then Some(quotes[0])
    else QuoteOnDay(quotes[1..], company, day)
  }

  /**
   * The realised quote at `date`. On an intraday exchange the latest
   * end-of-day quote strictly before the date is used when there is one;
   * otherwise the end-of-day quote stamped at the date's midnight. Null when
   * neither exists, which is not an error.
   */
  function QuoteAtDate(quotes: seq<Quote>, exchange: Exchange, company: string, date: int): (r: Option<Quote>)
    ensures r.Some? ==> r.value in quotes && IsEndOfDayQuoteOf(r.value, company)
    ensures r.Some? ==> (exchange.intraday && r.value.date < date) || r.value.date == Midnight(date)
    ensures exchange.intraday && (exists q :: q in quotes && IsEndOfDayQuoteOf(q, company) && q.date < date) ==>
              r.Some? && r.value.date < date &&
              forall q :: q in quotes && IsEndOfDayQuoteOf(q, company) && q.date < date ==> q.date <= r.value.date
    ensures r.Null? <==>
              && (!exchange.intraday || forall q :: q in quotes && IsEndOfDayQuoteOf(q, company) ==> date <= q.date)
              && (forall q :: q in quotes && IsEndOfDayQuoteOf(q, company) ==> q.date != Midnight(date))
  {
    var earlier := if exchange.intraday then LatestBefore(quotes, company, date) else Null;
    if earlier.Some? then earlier
    else QuoteOnDay(quotes, company, Midnight(date))
  }

  /** Down when the price fell from start open to end close, Up when it rose, None when equal. */
  function ActualDirection(open: real, close: real): (d: Direction)
    ensures d == Down <==> open > close
    ensures d == Up <==> open < close
    ensures d == None <==> open == close
  {
    var d := None;
    var d := if open > close then Down else d;
    var d := if open < close then Up else d;
    if open == close then None else d
  }

  /**
   * The prediction resolved against the quotes at its start and end: only
   * the three outcome fields change; it is correct exactly when the price
   * moved the predicted way (or stayed put when None was predicted); the
   * actual change is end close minus start open.
   */
  function Grade(p: Prediction, atStart: Quote, atEnd: Quote): (g: Prediction)
    ensures g == p.(correct := g.correct, actualChange := g.actualChange, actualEarningPerShare := g.actualEarningPerShare)
    ensures g.correct.Some? && g.actualChange.Some? && g.actualEarningPerShare.Some?
    ensures g.correct.value <==> || (p.direction == Up && atStart.open < atEnd.close)
                                 || (p.direction == Down && atStart.open > atEnd.close)
                                 || (p.direction == None && atStart.open == atEnd.close)
    ensures g.actualChange.value + atStart.open == atEnd.close
    ensures g.actualEarningPerShare.value >= 0.0
    ensures g.actualEarningPerShare.value == Abs(p.lastBid - (p.lastAsk - g.actualChange.value))
  {
    var actualChange := atEnd.close - atStart.open;
    p.(correct := Some(ActualDirection(atStart.open, atEnd.close) == p.direction),
       actualChange := Some(actualChange),
       actualEarningPerShare := Some(Abs(p.lastBid - (p.lastAsk - actualChange))))
  }

  /** What the validator does with one prediction. */
  datatype Verdict =
    | Skip                           // not open, or not yet overdue
    | Raise                          // its company or exchange is unknown: the run fails
    | Missing(request: MissingData)  // a realised quote is absent; the prediction stays open
    | Resolved(graded: Prediction)

  /** The exchange of a prediction's company, when both records exist. */
  function ExchangeOf(market: Market, p: Prediction): (e: Option<Exchange>)
    ensures e.Some? <==> p.company in market.companies && market.companies[p.company].exchange in market.exchanges
    ensures e.Some? ==> e.value == market.exchanges[market.companies[p.company].exchange]
  {
    if p.company !in market.companies then Null
    else
      var company := market.companies[p.company];
      if company.exchange !in market.exchanges then Null else Some(market.exchanges[company.exchange])
  }

  /** The realised quote at the start date of `p`, looked up for its company on its exchange. */
  function StartQuote(market: Market, p: Prediction): Option<Quote>
    requires ExchangeOf(market, p).Some?
  {
    QuoteAtDate(market.quotes, ExchangeOf(market, p).value, market.companies[p.company].id, StartDate(p))
  }

  /** The realised quote at the end date of `p`, looked up for its company on its exchange. */
  function EndQuote(market: Market, p: Prediction): Option<Quote>
    requires ExchangeOf(market, p).Some?
  {
    QuoteAtDate(market.quotes, ExchangeOf(market, p).value, market.companies[p.company].id, EndDate(p))
  }

  /** Open, overdue, its company and exchange known, and both realised quotes present. */
  predicate Gradable(market: Market, p: Prediction, now: int) {
    && DuplicateReconciler.IsOpen(p) && IsOverdue(p, now)
    && ExchangeOf(market, p).Some?
    && StartQuote(market, p).Some? && EndQuote(market, p).Some?
  }

  /**
   * One prediction's examination. Only open, overdue predictions are
   * touched. A missing start quote asks for the start day and skips the end
   * lookup; a missing end quote asks for the end day; both quotes present
   * resolve the prediction.
   */
  function Examine(market: Market, p: Prediction, now: int): (v: Verdict)
    ensures v.Skip? <==> !(DuplicateReconciler.IsOpen(p) && IsOverdue(p, now))
    ensures v.Raise? <==> DuplicateReconciler.IsOpen(p) && IsOverdue(p, now) && ExchangeOf(market, p).Null?
    ensures v.Missing? || v.Resolved? ==> p.company in market.companies && ExchangeOf(market, p).Some?
    ensures v.Missing? ==>
              && v.request.exchange == market.companies[p.company].exchange
              && v.request.date == (if StartQuote(market, p).Null? then Midnight(StartDate(p)) else Midnight(EndDate(p)))
    ensures v.Resolved? <==> Gradable(market, p, now)
    ensures v.Resolved? ==> v.graded == Grade(p, StartQuote(market, p).value, EndQuote(market, p).value)
  {
    if !(DuplicateReconciler.IsOpen(p) && IsOverdue(p, now)) then Skip
    else if ExchangeOf(market, p).Null? then Raise
    else
      var company := market.companies[p.company];
      var exchange := ExchangeOf(market, p).value;
      var startDate := StartDate(p);
      match QuoteAtDate(market.quotes, exchange, company.id, startDate)
      case Null => Missing(MissingData(company.exchange, Midnight(startDate)))
      case Some(atStart) =>
        var endDate := EndDate(p);
        match QuoteAtDate(market.quotes, exchange, company.id, endDate)
        case Null => Missing(MissingData(company.exchange, Midnight(endDate)))
        case Some(atEnd) => Resolved(Grade(p, atStart, atEnd))
  }

  /**
   * The prediction as the store holds it after its examination: graded
   * against its start and end quotes when it can be, otherwise unchanged.
   */
  function Settle(market: Market, p: Prediction, now: int): (r: Prediction)
    ensures r.id == p.id
    ensures Gradable(market, p, now) ==> r == Grade(p, StartQuote(market, p).value, EndQuote(market, p).value)
    ensures !Gradable(market, p, now) ==> r == p
  {
    match Examine(market, p, now)
    case Resolved(g) => g
    case _ => p
  }

  /**
   * Only open, overdue predictions change; a changed prediction is resolved
   * and keeps everything but its outcome fields; and a settled prediction is
   * never touched again.
   */
  lemma SettleResolvesOnlyOverdueOpenPredictions(market: Market, p: Prediction, now: int)
    ensures var r := Settle(market, p, now);
            && (r != p ==> DuplicateReconciler.IsOpen(p) && IsOverdue(p, now) && !DuplicateReconciler.IsOpen(r))
            && r == p.(correct := r.correct, actualChange := r.actualChange, actualEarningPerShare := r.actualEarningPerShare)
            && Settle(market, r, now) == r
  {
    var r := Settle(market, p, now);
    if r != p {
      assert Examine(market, p, now).Resolved?;
      assert !DuplicateReconciler.IsOpen(r);
      assert Examine(market, r, now).Skip?;
    }
  }

  /**
   * A requested day is the midnight of a business day: both rolled dates
   * avoid weekends and truncation keeps the weekday.
   */
  lemma MissingDayIsBusinessDayMidnight(market: Market, p: Prediction, now: int)
    requires Examine(market, p, now).Missing?
    ensures var day := Examine(market, p, now).request.date;
            day % DAY_MS == 0 && !IsWeekend(day)
  {
  }
  /** The store after a run has examined its first `n` predictions in store order. */
  function SettleUpTo(market: Market, ps: seq<Prediction>, now: int, n: nat): (r: seq<Prediction>)
    requires n <= |ps|
    ensures |r| == |ps|
    ensures forall i :: 0 <= i < n ==> r[i] == Settle(market, ps[i], now)
    ensures forall i :: n <= i < |ps| ==> r[i] == ps[i]
  {
    seq(|ps|, i requires 0 <= i < |ps| => if i < n then Settle(market, ps[i], now) else ps[i])
  }

  /** The first prediction at or after `from` whose examination fails the run. */
  function FirstRaise(market: Market, ps: seq<Prediction>, now: int, from: nat): (r: Option<nat>)
    requires from <= |ps|
    ensures r.Some? ==> from <= r.value < |ps| && Examine(market, ps[r.value], now).Raise?
    ensures r.Some? ==> forall j :: from <= j < r.value ==> !Examine(market, ps[j], now).Raise?
    ensures r.Null? <==> forall j :: from <= j < |ps| ==> !Examine(market, ps[j], now).Raise?
    decreases |ps| - from
  {
    if from == |ps| then Null
    else if Examine(market, ps[from], now).Raise? then Some(from)
    else FirstRaise(market, ps, now, from + 1)
  }

  /** The verdicts on the first `n` predictions, in store order. */
  function Verdicts(market: Market, ps: seq<Prediction>, now: int, n: nat): (vs: seq<Verdict>)
    requires n <= |ps|
    ensures |vs| == n
    ensures forall j :: 0 <= j < n ==> vs[j] == Examine(market, ps[j], now)
  {
    seq(n, j requires 0 <= j < n => Examine(market, ps[j], now))
  }

  /** The set of requests among some verdicts. */
  function Requests(vs: seq<Verdict>): (r: set<MissingData>)
    ensures forall m :: m in r <==> exists j :: 0 <= j < |vs| && vs[j] == Missing(m)
  {
    if |vs| == 0 then {}
    else
      var earlier := Requests(vs[..|vs| - 1]);
      if vs[|vs| - 1].Missing? then earlier + {vs[|vs| - 1].request} else earlier
  }

  /** The (exchange, day) requests collected from the first `n` predictions. */
  function MissingRequests(market: Market, ps: seq<Prediction>, now: int, n: nat): (r: set<MissingData>)
    requires n <= |ps|
    ensures forall m :: m in r <==> exists j :: 0 <= j < n && Examine(market, ps[j], now) == Missing(m)
  {
    Requests(Verdicts(market, ps, now, n))
  }

  /** One more step of the scan: the verdict on row `i` extends the run's results. */
  lemma ScanStep(market: Market, ps: seq<Prediction>, now: int, i: nat)
    requires i < |ps|
    ensures var v := Examine(market, ps[i], now);
            && MissingRequests(market, ps, now, i + 1)
                 == MissingRequests(market, ps, now, i) + (if v.Missing? then {v.request} else {})
            && SettleUpTo(market, ps, now, i + 1)
                 == SettleUpTo(market, ps, now, i)[i := if v.Resolved? then v.graded else ps[i]]
  {
    assert Verdicts(market, ps, now, i + 1) == Verdicts(market, ps, now, i) + [Examine(market, ps[i], now)];
  }

  /**
   * Every request a run collects names the midnight of a business day on the
   * exchange of an overdue open prediction's company.
   */
  lemma {:induction false} RequestsAreBusinessDayMidnights(market: Market, ps: seq<Prediction>, now: int, n: nat)
    requires n <= |ps|
    ensures forall m :: m in MissingRequests(market, ps, now, n) ==>
              && m.date % DAY_MS == 0 && !IsWeekend(m.date)
              && exists j :: 0 <= j < n && DuplicateReconciler.IsOpen(ps[j]) && IsOverdue(ps[j], now)
                             && ps[j].company in market.companies && m.exchange == market.companies[ps[j].company].exchange
  {
    forall m | m in MissingRequests(market, ps, now, n)
      ensures m.date % DAY_MS == 0 && !IsWeekend(m.date)
      ensures exists j :: 0 <= j < n && DuplicateReconciler.IsOpen(ps[j]) && IsOverdue(ps[j], now)
                          && ps[j].company in market.companies && m.exchange == market.companies[ps[j].company].exchange
    {
      var vs := Verdicts(market, ps, now, n);
      var j :| 0 <= j < n && vs[j] == Missing(m);
      MissingDayIsBusinessDayMidnight(market, ps[j], now);
    }
  }

  /** Validation only closes open predictions, so it cannot create an open duplicate. */
  lemma SettleUpToKeepsNoOpenDuplicates(market: Market, ps: seq<Prediction>, now: int, n: nat)
    requires n <= |ps|
    requires DuplicateReconciler.NoOpenDuplicates(ps)
    ensures DuplicateReconciler.NoOpenDuplicates(SettleUpTo(market, ps, now, n))
  {
    var r := SettleUpTo(market, ps, now, n);
    forall i, j | 0 <= i < j < |r| && DuplicateReconciler.IsOpen(r[i])
      ensures !DuplicateReconciler.IsOpenDuplicate(r[j], r[i])
    {
      SettleResolvesOnlyOverdueOpenPredictions(market, ps[i], now);
      SettleResolvesOnlyOverdueOpenPredictions(market, ps[j], now);
      assert r[i] == ps[i];
    }
  }

  /**
   * A second complete run changes no prediction: whatever the first run
   * resolved is no longer open, and whatever it left open meets the same
   * verdict again.
   */
  lemma SettleAllIsIdempotent(market: Market, ps: seq<Prediction>, now: int)
    ensures var once := SettleUpTo(market, ps, now, |ps|);
            SettleUpTo(market, once, now, |once|) == once
  {
    var once := SettleUpTo(market, ps, now, |ps|);
    forall i | 0 <= i < |ps|
      ensures Settle(market, once[i], now) == once[i]
    {
      SettleResolvesOnlyOverdueOpenPredictions(market, ps[i], now);
    }
  }
}
