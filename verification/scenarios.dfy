/** The engine's result on small concrete catalogs, proved as lemmas. */
module Scenarios {
  import opened Seqs
  import opened StableSort
  import opened Funds
  import opened UserProfiles
  import opened Recommendation

  /** A fund that differs from the others only in id, category, risk and one-year return. */
  function SampleFund(id: string, category: Category, risk: RiskLevel, oneYear: real): Fund {
    Fund(id, id, "AMC", category, risk, 10.0, 1000.0, 1.0, "None", 500.0, "2015-01-01",
         Returns(0.0, 0.0, 0.0, oneYear, 0.0, 0.0, 0.0),
         Volatility(0.0, 0.0, 0.0, 0.0),
         AssetAllocation(0.0, 0.0, 0.0, 0.0),
         [], [], Ratings(NotRated, NotRated))
  }

  /** A lone low-risk debt fund is the whole answer for a low-risk retirement saver. */
  lemma LoneDebtFund()
    ensures var f := SampleFund("bond", Label(DebtMediumTerm), RiskLevel.Low, 7.2);
      RecommendFunds([f], RiskAppetite.Low, Retirement, InvestmentHorizon.ShortTerm) == [f]
  {
    var f := SampleFund("bond", Label(DebtMediumTerm), RiskLevel.Low, 7.2);
    DebtWord(DebtMediumTerm);
    assert Admissible(RiskAppetite.Low, Retirement, f);
    var c := Candidates([f], RiskAppetite.Low, Retirement);
    assert f in c;
    assert c == [f];
  }

  /** A moderate appetite drops the high-risk fund even though it returns more. */
  lemma ModerateDropsHighRisk()
    ensures var a := SampleFund("mid", Label(MidCapEquity), RiskLevel.High, 22.3);
            var b := SampleFund("large", Label(LargeCapEquity), RiskLevel.Moderate, 18.5);
      RecommendFunds([a, b], RiskAppetite.Moderate, Wealth, InvestmentHorizon.ShortTerm) == [b]
  {
    var a := SampleFund("mid", Label(MidCapEquity), RiskLevel.High, 22.3);
    var b := SampleFund("large", Label(LargeCapEquity), RiskLevel.Moderate, 18.5);
    EquityWord(LargeCapEquity);
    assert Admissible(RiskAppetite.Moderate, Wealth, b);
    assert !Admissible(RiskAppetite.Moderate, Wealth, a);
    var c := Candidates([a, b], RiskAppetite.Moderate, Wealth);
    assert b in c && a !in c;
    assert IsSubsequence(c, [a, b]);
    assert c == [b];
  }

  /** Two funds of one category come out best first. */
  lemma HigherReturnFirst()
    ensures var lo := SampleFund("lo", Label(DebtShortTerm), RiskLevel.Low, 10.0);
            var hi := SampleFund("hi", Label(DebtShortTerm), RiskLevel.Low, 20.0);
      RecommendFunds([lo, hi], RiskAppetite.Low, InvestmentGoal.ShortTerm, InvestmentHorizon.ShortTerm) == [hi, lo]
  {
    var lo := SampleFund("lo", Label(DebtShortTerm), RiskLevel.Low, 10.0);
    var hi := SampleFund("hi", Label(DebtShortTerm), RiskLevel.Low, 20.0);
    DebtWord(DebtShortTerm);
    assert Admissible(RiskAppetite.Low, InvestmentGoal.ShortTerm, lo);
    assert Admissible(RiskAppetite.Low, InvestmentGoal.ShortTerm, hi);
    ShortAdmissibleCatalog([lo, hi], RiskAppetite.Low, InvestmentGoal.ShortTerm, InvestmentHorizon.ShortTerm);
    SortPair(lo, hi, RankKey(InvestmentHorizon.ShortTerm));
  }
}
