/**
  The recommendation engine: a risk filter, then a goal filter on the category
  label, then a stable descending sort on the return the horizon selects, cut to
  five funds.
 */
module Recommendation {
  import opened Seqs
  import opened Strings
  import opened StableSort
  import opened Funds
  import opened UserProfiles

  const MaxRecommendations: nat := 5

  /** Stage 1: which risk levels an appetite admits. */
  predicate RiskAccepts(appetite: RiskAppetite, level: RiskLevel) {
    match appetite
    case Low => level == RiskLevel.Low
    case Moderate => level == RiskLevel.Moderate || level == RiskLevel.Low
    case High => true
  }

  /** Stage 2: a case-sensitive substring test on the category label. */
  predicate GoalAccepts(goal: InvestmentGoal, category: Category) {
    match goal
    case Retirement => Contains(category, "Debt") || Contains(category, "Balanced")
    case Education => Contains(category, "Debt") || Contains(category, "Balanced")
    case Wealth => Contains(category, "Equity") || Contains(category, "Balanced")
    case ShortTerm => Contains(category, "Liquid") || Contains(category, "Debt")
  }

  /** Stage 3: the return that ranks funds for a horizon. */
  function RankingReturn(horizon: InvestmentHorizon, f: Fund): real {
    match horizon
    case ShortTerm => f.performance.oneYear
    case MediumTerm => f.performance.threeYear
    case LongTerm => f.performance.fiveYear
  }

  function RankKey(horizon: InvestmentHorizon): Fund -> real {
    f => RankingReturn(horizon, f)
  }

  function RiskTest(appetite: RiskAppetite): Fund -> bool {
    (f: Fund) => RiskAccepts(appetite, f.riskLevel)
  }

  function GoalTest(goal: InvestmentGoal): Fund -> bool {
    (f: Fund) => GoalAccepts(goal, f.category)
  }

  function RiskFiltered(catalog: seq<Fund>, appetite: RiskAppetite): seq<Fund> {
    Filter(catalog, RiskTest(appetite))
  }

  function GoalFiltered(funds: seq<Fund>, goal: InvestmentGoal): seq<Fund> {
    Filter(funds, GoalTest(goal))
  }

  /** A fund both stages let through. */
  predicate Admissible(appetite: RiskAppetite, goal: InvestmentGoal, f: Fund) {
    RiskAccepts(appetite, f.riskLevel) && GoalAccepts(goal, f.category)
  }

  /**
    The funds that survive both filters: exactly the admissible catalog funds, in
    catalog order, each as often as the catalog lists it.
   */
  function Candidates(catalog: seq<Fund>, appetite: RiskAppetite, goal: InvestmentGoal): (r: seq<Fund>)
    ensures forall f :: f in r ==> f in catalog && Admissible(appetite, goal, f)
    ensures forall f :: f in catalog && Admissible(appetite, goal, f) ==> f in r
    ensures IsSubsequence(r, catalog)
    ensures multiset(r) <= multiset(catalog)
    ensures forall f :: multiset(r)[f] == if Admissible(appetite, goal, f) then multiset(catalog)[f] else 0
  {
    var risky := RiskFiltered(catalog, appetite);
    var r := GoalFiltered(risky, goal);
    FilterCounts(catalog, RiskTest(appetite));
    FilterCounts(risky, GoalTest(goal));
    FilterMembers(catalog, RiskTest(appetite));
    FilterMembers(risky, GoalTest(goal));
    FilterIsSubsequence(catalog, RiskTest(appetite));
    FilterIsSubsequence(risky, GoalTest(goal));
    SubsequenceTransitive(r, risky, catalog);
    r
  }

  /** When every catalog fund passes both stages, neither filter drops or reorders anything. */
  lemma AllAdmissibleKept(catalog: seq<Fund>, appetite: RiskAppetite, goal: InvestmentGoal)
    requires forall i :: 0 <= i < |catalog| ==> Admissible(appetite, goal, catalog[i])
    ensures Candidates(catalog, appetite, goal) == catalog
  {
    FilterKeepsAll(catalog, RiskTest(appetite));
    FilterKeepsAll(catalog, GoalTest(goal));
  }

  /** `recommendFundsForUser(funds, riskAppetite, investmentGoal, horizon)`. */
  function RecommendFunds(catalog: seq<Fund>, appetite: RiskAppetite, goal: InvestmentGoal,
                          horizon: InvestmentHorizon): (r: seq<Fund>)
    ensures |r| == Min(MaxRecommendations, |Candidates(catalog, appetite, goal)|)
    ensures forall f :: f in r ==> f in catalog && Admissible(appetite, goal, f)
    ensures SortedDesc(r, RankKey(horizon))
  {
    var candidates := Candidates(catalog, appetite, goal);
    var ranked := SortDesc(candidates, RankKey(horizon));
    var r := Take(ranked, MaxRecommendations);
    SortedTake(ranked, RankKey(horizon), MaxRecommendations);
    TakeMultiset(ranked, MaxRecommendations);
    assert forall f :: f in r ==> f in candidates by {
      forall f | f in r ensures f in candidates {
        assert f in multiset(r);
      }
    }
    r
  }

  /** A short catalog that passes both filters comes back whole, best first. */
  lemma ShortAdmissibleCatalog(catalog: seq<Fund>, appetite: RiskAppetite, goal: InvestmentGoal,
                               horizon: InvestmentHorizon)
    requires |catalog| <= MaxRecommendations
    requires forall i :: 0 <= i < |catalog| ==> Admissible(appetite, goal, catalog[i])
    ensures RecommendFunds(catalog, appetite, goal, horizon) == SortDesc(catalog, RankKey(horizon))
  {
    AllAdmissibleKept(catalog, appetite, goal);
  }

  /** Recommendations come out in non-increasing order of the horizon's return. */
  lemma RecommendationsDescend(catalog: seq<Fund>, appetite: RiskAppetite, goal: InvestmentGoal,
                               horizon: InvestmentHorizon)
    ensures var r := RecommendFunds(catalog, appetite, goal, horizon);
      forall i, j :: 0 <= i < j < |r| ==> RankingReturn(horizon, r[i]) >= RankingReturn(horizon, r[j])
  {
    var r := RecommendFunds(catalog, appetite, goal, horizon);
    forall i, j | 0 <= i < j < |r| ensures RankingReturn(horizon, r[i]) >= RankingReturn(horizon, r[j]) {
      assert RankKey(horizon)(r[i]) >= RankKey(horizon)(r[j]);
    }
  }

  /** The ranked candidates the top five are cut from. */
  function Ranked(catalog: seq<Fund>, appetite: RiskAppetite, goal: InvestmentGoal,
                  horizon: InvestmentHorizon): seq<Fund> {
    SortDesc(Candidates(catalog, appetite, goal), RankKey(horizon))
  }

  /** Risk soundness for a low appetite: only low-risk funds come out. */
  lemma LowRiskSoundness(catalog: seq<Fund>, goal: InvestmentGoal, horizon: InvestmentHorizon)
    ensures forall f :: f in RecommendFunds(catalog, RiskAppetite.Low, goal, horizon) ==> f.riskLevel == RiskLevel.Low
  {
    var r := RecommendFunds(catalog, RiskAppetite.Low, goal, horizon);
    forall f | f in r ensures f.riskLevel == RiskLevel.Low {
      assert Admissible(RiskAppetite.Low, goal, f);
    }
  }

  /** Risk soundness for a moderate appetite: no high-risk fund comes out. */
  lemma ModerateRiskSoundness(catalog: seq<Fund>, goal: InvestmentGoal, horizon: InvestmentHorizon)
    ensures forall f :: f in RecommendFunds(catalog, RiskAppetite.Moderate, goal, horizon) ==> f.riskLevel != RiskLevel.High
  {
    var r := RecommendFunds(catalog, RiskAppetite.Moderate, goal, horizon);
    forall f | f in r ensures f.riskLevel != RiskLevel.High {
      assert Admissible(RiskAppetite.Moderate, goal, f);
    }
  }

  /** A high appetite makes the risk stage pass the whole catalog unchanged. */
  lemma HighAppetiteKeepsAll(catalog: seq<Fund>)
    ensures RiskFiltered(catalog, RiskAppetite.High) == catalog
  {
    FilterKeepsAll(catalog, RiskTest(RiskAppetite.High));
  }

  /** Goal soundness for retirement: every recommended label names debt or a balanced fund. */
  lemma RetirementSoundness(catalog: seq<Fund>, appetite: RiskAppetite, horizon: InvestmentHorizon)
    ensures forall f :: f in RecommendFunds(catalog, appetite, Retirement, horizon) ==>
      Contains(f.category, "Debt") || Contains(f.category, "Balanced")
  {
    forall f | f in RecommendFunds(catalog, appetite, Retirement, horizon)
      ensures Contains(f.category, "Debt") || Contains(f.category, "Balanced")
    {
      assert GoalAccepts(Retirement, f.category);
    }
  }

  /** Goal soundness for education: the same two words as retirement. */
  lemma EducationSoundness(catalog: seq<Fund>, appetite: RiskAppetite, horizon: InvestmentHorizon)
    ensures forall f :: f in RecommendFunds(catalog, appetite, Education, horizon) ==>
      Contains(f.category, "Debt") || Contains(f.category, "Balanced")
  {
    forall f | f in RecommendFunds(catalog, appetite, Education, horizon)
      ensures Contains(f.category, "Debt") || Contains(f.category, "Balanced")
    {
      assert GoalAccepts(Education, f.category);
    }
  }

  /** Goal soundness for wealth creation: every recommended label names equity or a balanced fund. */
  lemma WealthSoundness(catalog: seq<Fund>, appetite: RiskAppetite, horizon: InvestmentHorizon)
    ensures forall f :: f in RecommendFunds(catalog, appetite, Wealth, horizon) ==>
      Contains(f.category, "Equity") || Contains(f.category, "Balanced")
  {
    forall f | f in RecommendFunds(catalog, appetite, Wealth, horizon)
      ensures Contains(f.category, "Equity") || Contains(f.category, "Balanced")
    {
      assert GoalAccepts(Wealth, f.category);
    }
  }

  /** Goal soundness for a short-term goal: every recommended label names a liquid or debt fund. */
  lemma ShortTermSoundness(catalog: seq<Fund>, appetite: RiskAppetite, horizon: InvestmentHorizon)
    ensures forall f :: f in RecommendFunds(catalog, appetite, InvestmentGoal.ShortTerm, horizon) ==>
      Contains(f.category, "Liquid") || Contains(f.category, "Debt")
  {
    forall f | f in RecommendFunds(catalog, appetite, InvestmentGoal.ShortTerm, horizon)
      ensures Contains(f.category, "Liquid") || Contains(f.category, "Debt")
    {
      assert GoalAccepts(InvestmentGoal.ShortTerm, f.category);
    }
  }

  /** An empty catalog, or one where nothing passes the filters, yields no recommendation. */
  lemma NoCandidatesNoRecommendations(catalog: seq<Fund>, appetite: RiskAppetite, goal: InvestmentGoal,
                                      horizon: InvestmentHorizon)
    requires forall f :: f in catalog ==> !Admissible(appetite, goal, f)
    ensures RecommendFunds(catalog, appetite, goal, horizon) == []
  {
    var c := Candidates(catalog, appetite, goal);
    assert forall i :: 0 <= i < |c| ==> c[i] in c;
  }

  /**
    Top five: a candidate left out of the output ranks no higher than any fund in
    the output.
   */
  lemma TopK(catalog: seq<Fund>, appetite: RiskAppetite, goal: InvestmentGoal, horizon: InvestmentHorizon)
    ensures var r := RecommendFunds(catalog, appetite, goal, horizon);
      forall f :: f in multiset(Candidates(catalog, appetite, goal)) - multiset(r) ==>
        forall i :: 0 <= i < |r| ==> RankingReturn(horizon, f) <= RankingReturn(horizon, r[i])
  {
    var ranked := Ranked(catalog, appetite, goal, horizon);
    forall f | f in multiset(Candidates(catalog, appetite, goal)) - multiset(Take(ranked, MaxRecommendations)) {
      TakeDominates(ranked, RankKey(horizon), MaxRecommendations, f);
    }
  }

  /**
    Ties keep catalog order: for every return value, the recommended funds with that
    return are the first ones among the candidates with that return, in catalog order.
   */
  lemma TiesKeepCatalogOrder(catalog: seq<Fund>, appetite: RiskAppetite, goal: InvestmentGoal,
                             horizon: InvestmentHorizon, k: real)
    ensures KeyClass(RecommendFunds(catalog, appetite, goal, horizon), RankKey(horizon), k)
         <= KeyClass(Candidates(catalog, appetite, goal), RankKey(horizon), k)
  {
    var candidates := Candidates(catalog, appetite, goal);
    var ranked := Ranked(catalog, appetite, goal, horizon);
    var r := RecommendFunds(catalog, appetite, goal, horizon);
    SortDescStable(candidates, RankKey(horizon));
    assert KeyClass(ranked, RankKey(horizon), k) == KeyClass(candidates, RankKey(horizon), k);
    KeyClassOfPrefix(ranked, RankKey(horizon), k, |r|);
    assert r == ranked[..|r|];
  }

  /**
    The output is drawn from the catalog: as a multiset it fits inside the catalog,
    so it is a reordering of some subsequence of the catalog.
   */
  lemma OutputIsPermutedSubsequence(catalog: seq<Fund>, appetite: RiskAppetite, goal: InvestmentGoal,
                                    horizon: InvestmentHorizon)
    ensures multiset(RecommendFunds(catalog, appetite, goal, horizon)) <= multiset(catalog)
    ensures exists s :: IsSubsequence(s, catalog) && multiset(s) == multiset(RecommendFunds(catalog, appetite, goal, horizon))
  {
    var r := RecommendFunds(catalog, appetite, goal, horizon);
    var ranked := Ranked(catalog, appetite, goal, horizon);
    TakeMultiset(ranked, MaxRecommendations);
    SubmultisetIsPermutedSubsequence(r, catalog);
  }

  /**
    The engine's order does not depend on the sorting algorithm: any stable
    descending arrangement of the candidates, cut to five, is the engine's output.
   */
  lemma AnyStableSortAgrees(catalog: seq<Fund>, appetite: RiskAppetite, goal: InvestmentGoal,
                            horizon: InvestmentHorizon, arranged: seq<Fund>)
    requires SortedDesc(arranged, RankKey(horizon))
    requires SameKeyClasses(arranged, Candidates(catalog, appetite, goal), RankKey(horizon))
    ensures Take(arranged, MaxRecommendations) == RecommendFunds(catalog, appetite, goal, horizon)
  {
    SortSpecDeterminesResult(Candidates(catalog, appetite, goal), arranged, RankKey(horizon));
  }

  /**
    A structured reading of the twelve declared labels: the family words each
    label carries.
   */
  datatype Family = EquityFamily | DebtFamily | BalancedFamily | LiquidFamily

  function DeclaredFamilies(c: DeclaredCategory): set<Family> {
    match c
    case LargeCapEquity | MidCapEquity | SmallCapEquity | MultiCapEquity | HybridEquity => {EquityFamily}
    case DebtShortTerm | DebtMediumTerm | DebtLongTerm => {DebtFamily}
    case BalancedAdvantage => {BalancedFamily}
    case LiquidFunds => {LiquidFamily}
    case IndexFunds | Elss => {}
  }

  /** The families each goal asks for. */
  function GoalFamilies(goal: InvestmentGoal): set<Family> {
    match goal
    case Retirement => {DebtFamily, BalancedFamily}
    case Education => {DebtFamily, BalancedFamily}
    case Wealth => {EquityFamily, BalancedFamily}
    case ShortTerm => {LiquidFamily, DebtFamily}
  }

  /** "Debt" occurs in exactly the three debt labels. */
  lemma DebtWord(c: DeclaredCategory)
    ensures Contains(Label(c), "Debt") <==> DebtFamily in DeclaredFamilies(c)
  {
    if DebtFamily in DeclaredFamilies(c) {
      ContainsAt(Label(c), "Debt", 0);
    } else {
      NoDebtOutside(c);
    }
  }

  /** No other label has a capital D. */
  lemma NoDebtOutside(c: DeclaredCategory)
    requires DebtFamily !in DeclaredFamilies(c)
    ensures !Contains(Label(c), "Debt")
  {
    NotContainsMissingChar(Label(c), "Debt", 0);
  }

  /** "Balanced" occurs only in "Balanced Advantage". */
  lemma BalancedWord(c: DeclaredCategory)
    ensures Contains(Label(c), "Balanced") <==> c == BalancedAdvantage
  {
    if c == BalancedAdvantage {
      ContainsAt(Label(c), "Balanced", 0);
    } else {
      NoBalancedOutside(c);
    }
  }

  /** No other label has a capital B. */
  lemma NoBalancedOutside(c: DeclaredCategory)
    requires c != BalancedAdvantage
    ensures !Contains(Label(c), "Balanced")
  {
    NotContainsMissingChar(Label(c), "Balanced", 0);
  }

  /** "Equity" ends each equity label and occurs in no other. */
  lemma EquityWord(c: DeclaredCategory)
    ensures Contains(Label(c), "Equity") <==> EquityFamily in DeclaredFamilies(c)
  {
    if EquityFamily in DeclaredFamilies(c) {
      ContainsAt(Label(c), "Equity", |Label(c)| - 6);
    } else {
      NoEquityOutside(c);
    }
  }

  /** The other labels lack a capital E, except "ELSS", which has no 'q'. */
  lemma NoEquityOutside(c: DeclaredCategory)
    requires EquityFamily !in DeclaredFamilies(c)
    ensures !Contains(Label(c), "Equity")
  {
    match c
    case Elss => NotContainsMissingChar(Label(c), "Equity", 1);
    case _ => NotContainsMissingChar(Label(c), "Equity", 0);
  }

  /** "Liquid" occurs only in "Liquid Funds". */
  lemma LiquidWord(c: DeclaredCategory)
    ensures Contains(Label(c), "Liquid") <==> c == LiquidFunds
  {
    if c == LiquidFunds {
      ContainsAt(Label(c), "Liquid", 0);
    } else {
      NoLiquidOutside(c);
    }
  }

  /** "Liquid" is in no label but its own. */
  lemma NoLiquidOutside(c: DeclaredCategory)
    requires c != LiquidFunds
    ensures !Contains(Label(c), "Liquid")
  {
    if EquityFamily in DeclaredFamilies(c) {
      NoLiquidInEquity(c);
    } else {
      NotContainsMissingChar(Label(c), "Liquid", 2);
    }
  }

  /** "Large Cap Equity" has no 'd'; the other equity labels have no capital L. */
  lemma NoLiquidInEquity(c: DeclaredCategory)
    requires EquityFamily in DeclaredFamilies(c)
    ensures !Contains(Label(c), "Liquid")
  {
    if c == LargeCapEquity {
      NotContainsMissingChar(Label(c), "Liquid", 5);
    } else {
      NotContainsMissingChar(Label(c), "Liquid", 0);
    }
  }

  /**
    The substring goal filter agrees, on every declared label, with the family
    table: a label passes a goal exactly when it has a family the goal asks for.
   */
  lemma GoalFilterMatchesFamilies(c: DeclaredCategory, goal: InvestmentGoal)
    ensures GoalAccepts(goal, Label(c)) <==> DeclaredFamilies(c) * GoalFamilies(goal) != {}
  {
    DebtWord(c);
    BalancedWord(c);
    EquityWord(c);
    LiquidWord(c);
    var common := DeclaredFamilies(c) * GoalFamilies(goal);
    if GoalAccepts(goal, Label(c)) {
      var fam :| fam in GoalFamilies(goal) && fam in DeclaredFamilies(c);
      assert fam in common;
    } else {
      forall fam | fam in GoalFamilies(goal) ensures fam !in DeclaredFamilies(c) {
      }
    }
  }

  /**
    Consequences for the declared labels: "ELSS" and "Index Funds" pass no goal,
    and "Liquid Funds" passes only the short-term goal.
   */
  lemma UnreachableAndLiquidLabels(goal: InvestmentGoal)
    ensures !GoalAccepts(goal, Label(Elss)) && !GoalAccepts(goal, Label(IndexFunds))
    ensures GoalAccepts(goal, Label(LiquidFunds)) <==> goal == InvestmentGoal.ShortTerm
  {
    GoalFilterMatchesFamilies(Elss, goal);
    GoalFilterMatchesFamilies(IndexFunds, goal);
    GoalFilterMatchesFamilies(LiquidFunds, goal);
    assert {LiquidFamily} * GoalFamilies(goal) != {} <==> LiquidFamily in GoalFamilies(goal) by {
      if LiquidFamily in GoalFamilies(goal) {
        assert LiquidFamily in {LiquidFamily} * GoalFamilies(goal);
      }
    }
  }
}
