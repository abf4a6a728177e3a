/**
  The recommendations page's logic: the best-performing recommended fund for a
  chosen timeframe, and the click handler that opens a recommended fund.
 */
module RecommendationsPage {
  import opened Wrappers
  import opened StableSort
  import opened Funds
  import opened UserProfiles
  import opened Recommendation

  /** The timeframe selector's three choices. */
  datatype Timeframe = OneYear | ThreeYear | FiveYear

  /** The return a timeframe reads; anything but one or three years reads five years. */
  function TimeframeReturn(t: Timeframe, f: Fund): real {
    match t
    case OneYear => f.performance.oneYear
    case ThreeYear => f.performance.threeYear
    case FiveYear => f.performance.fiveYear
  }

  /** `xs[i]` is `f`, and every fund before position `i` returns strictly less than `f`. */
  predicate FirstWithReturn(xs: seq<Fund>, t: Timeframe, i: int, f: Fund) {
    && 0 <= i < |xs| && xs[i] == f
    && forall j :: 0 <= j < i ==> TimeframeReturn(t, xs[j]) < TimeframeReturn(t, f)
  }

  /**
    The reducer step folded over the list: the current fund replaces the best so
    far only when its return is strictly greater. The result is the first fund,
    `best` counting as position -1, whose return no later fund exceeds.
   */
  function ReduceBest(best: Fund, rest: seq<Fund>, t: Timeframe): (r: Fund)
    ensures TimeframeReturn(t, best) <= TimeframeReturn(t, r)
    ensures forall i :: 0 <= i < |rest| ==> TimeframeReturn(t, rest[i]) <= TimeframeReturn(t, r)
    ensures r == best || (TimeframeReturn(t, best) < TimeframeReturn(t, r)
                          && exists i :: FirstWithReturn(rest, t, i, r))
    decreases |rest|
  {
    if |rest| == 0 then best
    else
      var next := if TimeframeReturn(t, rest[0]) > TimeframeReturn(t, best) then rest[0] else best;
      var r := ReduceBest(next, rest[1..], t);
      assert r != best ==> exists i :: FirstWithReturn(rest, t, i, r) by {
        if r != best {
          if r == next {
            assert FirstWithReturn(rest, t, 0, r);
          } else {
            var i :| FirstWithReturn(rest[1..], t, i, r);
            assert FirstWithReturn(rest, t, i + 1, r);
          }
        }
      }
      r
  }

  /**
    `getBestFund`: `None` exactly for an empty list; otherwise a listed fund with
    the largest return for the timeframe, the earliest such one on ties.
   */
  function BestFund(recommended: seq<Fund>, t: Timeframe): (r: Option<Fund>)
    ensures r.None? <==> |recommended| == 0
    ensures r.Some? ==> r.value in recommended
    ensures r.Some? ==> forall i :: 0 <= i < |recommended| ==>
      TimeframeReturn(t, recommended[i]) <= TimeframeReturn(t, r.value)
    ensures r.Some? ==> exists i :: FirstWithReturn(recommended, t, i, r.value)
  {
    if |recommended| == 0 then None
    else
      var r := ReduceBest(recommended[0], recommended, t);
      assert r == recommended[0] ==> FirstWithReturn(recommended, t, 0, r);
      Some(r)
  }

  /** When the first fund returns at least as much as every other, it is the best fund. */
  lemma BestOfLeaderIsFirst(xs: seq<Fund>, t: Timeframe)
    requires |xs| > 0
    requires forall i :: 0 <= i < |xs| ==> TimeframeReturn(t, xs[i]) <= TimeframeReturn(t, xs[0])
    ensures BestFund(xs, t) == Some(xs[0])
  {
    var best := BestFund(xs, t).value;
    var i :| FirstWithReturn(xs, t, i, best);
  }

  /** The timeframe that reads the same return the horizon ranks by. */
  predicate TimeframeMatches(t: Timeframe, horizon: InvestmentHorizon) {
    match horizon
    case ShortTerm => t == OneYear
    case MediumTerm => t == ThreeYear
    case LongTerm => t == FiveYear
  }

  /**
    On the engine's own output, with the timeframe its horizon ranks by, the best
    fund is simply the first recommendation.
   */
  lemma BestOfRankedIsFirst(catalog: seq<Fund>, appetite: RiskAppetite, goal: InvestmentGoal,
                            horizon: InvestmentHorizon, t: Timeframe)
    requires TimeframeMatches(t, horizon)
    ensures var r := RecommendFunds(catalog, appetite, goal, horizon);
      |r| > 0 ==> BestFund(r, t) == Some(r[0])
  {
    var r := RecommendFunds(catalog, appetite, goal, horizon);
    if |r| > 0 {
      SortedLeads(r, horizon, t);
      BestOfLeaderIsFirst(r, t);
    }
  }

  /** A list in the horizon's ranking order is led by its best fund for the matching timeframe. */
  lemma SortedLeads(r: seq<Fund>, horizon: InvestmentHorizon, t: Timeframe)
    requires TimeframeMatches(t, horizon) && |r| > 0
    requires SortedDesc(r, RankKey(horizon))
    ensures forall i :: 0 <= i < |r| ==> TimeframeReturn(t, r[i]) <= TimeframeReturn(t, r[0])
  {
    forall i | 0 <= i < |r| ensures TimeframeReturn(t, r[i]) <= TimeframeReturn(t, r[0]) {
      assert RankKey(horizon)(r[i]) <= RankKey(horizon)(r[0]);
    }
  }

  /** The page state the click handler touches: the selected fund and the route. */
  datatype PageState = PageState(selected: Option<Fund>, route: string)

  /**
    `handleFundClick`: when a recommended fund has the id, the first such fund is
    selected and the route moves to its detail page; otherwise nothing changes.
   */
  function HandleFundClick(state: PageState, recommended: seq<Fund>, fundId: string): (s: PageState)
    ensures (forall i :: 0 <= i < |recommended| ==> recommended[i].id != fundId) ==> s == state
    ensures (exists i :: 0 <= i < |recommended| && recommended[i].id == fundId) ==>
      && s.selected.Some?
      && s.selected.value.id == fundId
      && s.route == "/fund/" + fundId
      && exists i :: 0 <= i < |recommended| && recommended[i] == s.selected.value
                     && forall j :: 0 <= j < i ==> recommended[j].id != fundId
  {
    match FindById(recommended, fundId)
    case Some(f) => PageState(Some(f), "/fund/" + fundId)
    case None => state
  }
}
