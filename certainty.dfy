/**
 * The certainty estimate: the hit rate of the company's past predictions that
 * are validated, point the same way and were made within the last 30 days,
 * with a coin-flip default and a clamp for short perfect streaks.
 */
module CertaintyEstimator {
  import opened Domain
  import TradingCalendar

  const LOOKBACK_DAYS: int := 30
  const HISTORY_PAGE_SIZE: nat := 100
  const DEFAULT_CERTAINTY: real := 0.5
  const SHORT_STREAK_CERTAINTY: real := 0.6
  const SHORT_STREAK: nat := 3

  /** The prediction has been graded, either way. */
  predicate IsValidated(p: Prediction)
    ensures IsValidated(p) <==> p.correct == Some(true) || p.correct == Some(false)
  {
    match p.correct
    case Null => false
    case Some(b) => assert p.correct == Some(true) || p.correct == Some(false); true
  }

  /** The prediction was made strictly after `now` minus `days` days: it is younger than `days` days. */
  predicate IsWithinLastDays(p: Prediction, days: int, now: int)
    ensures IsWithinLastDays(p, days, now) <==> now - p.predictionDate < days * TradingCalendar.DAY_MS
  {
    TradingCalendar.MinusDays(now, days) < p.predictionDate
  }

  /** The prediction points in `direction`. */
  predicate MatchesDirection(p: Prediction, direction: Direction) {
    p.direction == direction
  }

  /** The prediction was graded correct; an open prediction is never correct. */
  predicate IsCorrect(p: Prediction)
    ensures IsCorrect(p) ==> IsValidated(p)
  {
    p.correct == Some(true)
  }

  /** The three filters the estimate applies, in the order it applies them. */
  predicate IsComparable(p: Prediction, direction: Direction, now: int) {
    IsValidated(p) && MatchesDirection(p, direction) && IsWithinLastDays(p, LOOKBACK_DAYS, now)
  }

  /** The prediction query by company, in store order. */
  function CompanyPredictions(ps: seq<Prediction>, company: string): (r: seq<Prediction>)
    ensures |r| <= |ps|
    ensures forall p :: p in r <==> p in ps && p.company == company
  {
    if |ps| == 0 then []
    else
      var rest := CompanyPredictions(ps[1..], company);
      if ps[0].company == company then [ps[0]] + rest else rest
  }

  /** Each row of the company occurs in the query result as often as in the store. */
  lemma {:induction false} CompanyPredictionsKeepsEveryRow(ps: seq<Prediction>, company: string)
    ensures forall p :: multiset(CompanyPredictions(ps, company))[p] == if p.company == company then multiset(ps)[p] else 0
  {
    if |ps| > 0 {
      assert ps == [ps[0]] + ps[1..];
      CompanyPredictionsKeepsEveryRow(ps[1..], company);
    }
  }

  /**
   * The query keeps store order: the rows of a concatenation are the rows of
   * the first part followed by those of the second.
   */
  lemma {:induction false} CompanyPredictionsOfConcat(a: seq<Prediction>, b: seq<Prediction>, company: string)
    ensures CompanyPredictions(a + b, company) == CompanyPredictions(a, company) + CompanyPredictions(b, company)
  {
    if |a| > 0 {
      assert (a + b)[1..] == a[1..] + b;
      CompanyPredictionsOfConcat(a[1..], b, company);
    } else {
      assert a + b == b;
    }
  }

  /** The first page of at most `size` elements. */
  function Page<T>(s: seq<T>, size: nat): (r: seq<T>)
    ensures |r| == if |s| <= size then |s| else size
    ensures r == s[..|r|]
  {
    if |s| <= size then s else s[..size]
  }

  /** The past predictions the estimate looks at: the first page of 100 of the company's. */
  function History(ps: seq<Prediction>, company: string): (r: seq<Prediction>)
    ensures |r| <= HISTORY_PAGE_SIZE
    ensures forall p :: p in r ==> p in ps && p.company == company
    ensures var all := CompanyPredictions(ps, company);
            |r| == (if |all| <= HISTORY_PAGE_SIZE then |all| else HISTORY_PAGE_SIZE) && r == all[..|r|]
  {
    Page(CompanyPredictions(ps, company), HISTORY_PAGE_SIZE)
  }

  function MatchingPredictions(history: seq<Prediction>, direction: Direction, now: int): (r: seq<Prediction>)
    ensures |r| <= |history|
    ensures forall p :: p in r <==> p in history && IsComparable(p, direction, now)
  {
    if |history| == 0 then []
    else
      var rest := MatchingPredictions(history[1..], direction, now);
      if IsComparable(history[0], direction, now) then [history[0]] + rest else rest
  }

  /** Each comparable prediction occurs among the matching ones as often as in the history. */
  lemma {:induction false} MatchingPredictionsKeepsEveryRow(history: seq<Prediction>, direction: Direction, now: int)
    ensures forall p :: multiset(MatchingPredictions(history, direction, now))[p] == if IsComparable(p, direction, now) then multiset(history)[p] else 0
  {
    if |history| > 0 {
      assert history == [history[0]] + history[1..];
      MatchingPredictionsKeepsEveryRow(history[1..], direction, now);
    }
  }

  /** The size of the list of correct predictions: the number of positions holding one. */
  function CorrectCount(ps: seq<Prediction>): (n: nat)
    ensures n == |set i | 0 <= i < |ps| && IsCorrect(ps[i])|
    ensures n <= |ps|
    ensures n == |ps| <==> forall p :: p in ps ==> IsCorrect(p)
  {
    if |ps| == 0 then 0
    else
      var k := |ps| - 1;
      var init := ps[..k];
      assert (set i | 0 <= i < |ps| && IsCorrect(ps[i]))
          == (set i | 0 <= i < k && IsCorrect(init[i])) + (if IsCorrect(ps[k]) then {k} else {});
      assert forall p :: p in ps <==> p in init || p == ps[k];
      CorrectCount(init) + (if IsCorrect(ps[k]) then 1 else 0)
  }

  /**
   * The certainty of a new prediction in `direction`, given the past
   * predictions `history`: always within [0, 1], the default 0.5 without
   * comparable predictions.
   */
  function Certainty(history: seq<Prediction>, direction: Direction, now: int): (c: real)
    ensures 0.0 <= c <= 1.0
    ensures MatchingPredictions(history, direction, now) == [] ==> c == DEFAULT_CERTAINTY
  {
    var matching := MatchingPredictions(history, direction, now);
    var correct := CorrectCount(matching);
    var ratio := if |matching| == 0 then DEFAULT_CERTAINTY else HitRate(correct, |matching|);
    if ratio == 1.0 && |matching| < SHORT_STREAK then SHORT_STREAK_CERTAINTY else ratio
  }

  /** correct / matching as a double division. */
  function HitRate(correct: nat, matching: nat): (r: real)
    requires 0 < matching && correct <= matching
    ensures 0.0 <= r <= 1.0
    ensures r * matching as real == correct as real
    ensures r == 1.0 <==> correct == matching
  {
    RatioIsOneOnlyWhenAllCount(correct, matching);
    correct as real / matching as real
  }

  /**
   * With at least one comparable prediction, the certainty is the hit rate
   * correct / matching, except that a perfect record of fewer than three
   * is reported as 0.6; in particular a short streak never yields 1.0.
   */
  lemma CertaintyIsHitRate(history: seq<Prediction>, direction: Direction, now: int)
    requires MatchingPredictions(history, direction, now) != []
    ensures var matching := MatchingPredictions(history, direction, now);
            var c := Certainty(history, direction, now);
            && (|matching| >= SHORT_STREAK ==> c == CorrectCount(matching) as real / |matching| as real)
            && (CorrectCount(matching) < |matching| ==> c == CorrectCount(matching) as real / |matching| as real < 1.0)
            && (CorrectCount(matching) == |matching| < SHORT_STREAK ==> c == SHORT_STREAK_CERTAINTY)
            && (|matching| < SHORT_STREAK ==> c < 1.0)
  {
    var matching := MatchingPredictions(history, direction, now);
    RatioIsOneOnlyWhenAllCount(CorrectCount(matching), |matching|);
  }

  lemma RatioIsOneOnlyWhenAllCount(k: nat, m: nat)
    requires 0 < m && k <= m
    ensures 0.0 <= k as real / m as real <= 1.0
    ensures k as real / m as real == 1.0 <==> k == m
    ensures k < m ==> k as real / m as real < 1.0
  {
  }

  /** Predictions agree on everything the estimate can see. */
  predicate SameForEstimate(a: Prediction, b: Prediction) {
    a.company == b.company && IsValidated(a) == IsValidated(b) && (IsValidated(a) ==> a == b)
  }

  /**
   * `after` is `before` with open predictions changed or appended only: the
   * validated ones are untouched, nothing changes company or validation state,
   * and whatever is appended is open.
   */
  predicate OnlyOpenChanged(before: seq<Prediction>, after: seq<Prediction>) {
    && |before| <= |after|
    && (forall i :: 0 <= i < |before| ==> SameForEstimate(before[i], after[i]))
    && (forall i :: |before| <= i < |after| ==> !IsValidated(after[i]))
  }

  lemma {:induction false} CompanyPredictionsOnlyOpenChanged(before: seq<Prediction>, after: seq<Prediction>, company: string)
    requires OnlyOpenChanged(before, after)
    ensures OnlyOpenChanged(CompanyPredictions(before, company), CompanyPredictions(after, company))
  {
    if |before| == 0 {
      var ca := CompanyPredictions(after, company);
      forall i | 0 <= i < |ca| ensures !IsValidated(ca[i]) {
        assert ca[i] in after;
      }
    } else {
      TailOnlyOpenChanged(before, after);
      CompanyPredictionsOnlyOpenChanged(before[1..], after[1..], company);
      var rb, ra := CompanyPredictions(before[1..], company), CompanyPredictions(after[1..], company);
      if before[0].company == company {
        ConsOnlyOpenChanged(before[0], after[0], rb, ra);
      }
    }
  }

  lemma TailOnlyOpenChanged(before: seq<Prediction>, after: seq<Prediction>)
    requires |before| > 0 && OnlyOpenChanged(before, after)
    ensures OnlyOpenChanged(before[1..], after[1..])
  {
    forall i | 0 <= i < |before| - 1 ensures SameForEstimate(before[1..][i], after[1..][i]) {
      assert before[1..][i] == before[i + 1] && after[1..][i] == after[i + 1];
    }
  }

  lemma ConsOnlyOpenChanged(a: Prediction, b: Prediction, before: seq<Prediction>, after: seq<Prediction>)
    requires SameForEstimate(a, b) && OnlyOpenChanged(before, after)
    ensures OnlyOpenChanged([a] + before, [b] + after)
  {
    forall i | 0 < i <= |before| ensures SameForEstimate(([a] + before)[i], ([b] + after)[i]) {
      assert ([a] + before)[i] == before[i - 1] && ([b] + after)[i] == after[i - 1];
    }
    forall i | |before| < i < |after| + 1 ensures !IsValidated(([b] + after)[i]) {
      assert ([b] + after)[i] == after[i - 1];
    }
  }

  lemma PageOnlyOpenChanged(before: seq<Prediction>, after: seq<Prediction>, size: nat)
    requires OnlyOpenChanged(before, after)
    ensures OnlyOpenChanged(Page(before, size), Page(after, size))
  {
  }

  lemma {:induction false} MatchingOnlyOpenChanged(before: seq<Prediction>, after: seq<Prediction>, direction: Direction, now: int)
    requires OnlyOpenChanged(before, after)
    ensures MatchingPredictions(before, direction, now) == MatchingPredictions(after, direction, now)
  {
    if |before| == 0 {
      if |after| > 0 {
        assert OnlyOpenChanged(before, after[1..]);
        MatchingOnlyOpenChanged(before, after[1..], direction, now);
      }
    } else {
      assert OnlyOpenChanged(before[1..], after[1..]);
      MatchingOnlyOpenChanged(before[1..], after[1..], direction, now);
    }
  }

  /**
   * Changing or adding open predictions leaves every later certainty estimate
   * as it was: only validated predictions are counted.
   */
  lemma CertaintyIgnoresOpenPredictions(before: seq<Prediction>, after: seq<Prediction>, company: string, direction: Direction, now: int)
    requires OnlyOpenChanged(before, after)
    ensures Certainty(History(before, company), direction, now) == Certainty(History(after, company), direction, now)
  {
    CompanyPredictionsOnlyOpenChanged(before, after, company);
    PageOnlyOpenChanged(CompanyPredictions(before, company), CompanyPredictions(after, company), HISTORY_PAGE_SIZE);
    MatchingOnlyOpenChanged(History(before, company), History(after, company), direction, now);
  }
}
