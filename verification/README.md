# Fund recommender model

A Dafny model of the decision logic of a mutual-fund discovery web application.
A user enters a profile (risk appetite, investment goal, investment horizon and
some personal figures). The application then filters and ranks a static fund
catalog and shows analytics for a single fund. The model covers five pieces:

- the recommendation engine `recommendFundsForUser`, which runs a risk filter, a
  substring goal filter on the category label, a stable descending sort on the
  return the horizon selects, and a cut to five funds (`Recommendation`, built on
  `Seqs`, `Strings` and `StableSort`);
- the fund-detail page's computations: the lookup by id, the peer list, the
  returns and volatility comparison tables with their seeded extremes, and the
  sector chart data (`FundDetails`);
- the recommendations page's best-fund selector and its click handler
  (`RecommendationsPage`);
- the user profile, its enumerations, the default profile and the completeness
  predicate (`UserProfiles`);
- the fund record and its parts (`Funds`).

`Scenarios` proves, as lemmas, the engine's result on small concrete catalogs.

Modelling choices:

- Every metric is a `real`, so sums, means and comparisons are exact.
- A category is a `string` rather than an enumeration. The goal filter is a
  case-sensitive substring test (`Strings.Contains`, standing for
  `String.prototype.includes`). The twelve labels of the declared union are the
  enumeration `Funds.DeclaredCategory`, with `Funds.Label` giving each label's
  text, and the `*Word` lemmas read the goal filter off those texts.
- `Array.prototype.sort` is modelled as a stable insertion sort (`StableSort.SortDesc`).
  Section 22.1.3.27 of ECMA-262, 10th edition (2019), requires the engine's sort to be stable.
  `StableSort.SortSpecDeterminesResult` shows that any stable descending arrangement
  equals the model's, so the choice of algorithm does not matter.
- `filter` and `slice` are `Seqs.Filter` and `Seqs.Take`. The model is purely
  functional, so sorting never reorders the caller's catalog. In the source the same
  holds because `sort` runs on the fresh array that `filter` returns.
- The sector allocation object is an ordered list of distinct (key, share) entries.
- `Funds.FindById` is the one lookup by id. The detail page uses it on the whole
  catalog, and the click handler uses it on the recommended list.

Four behaviours of the code that a reader might not expect, and how the model
follows them:

- The engine never checks profile completeness. The provider calls it for any
  profile that is present, once the catalog is non-empty
  (src/context/FundsContext.tsx:51-59), so
  `Recommendation.RecommendFunds` has no completeness precondition.
- The category type is a closed union of twelve labels (src/types/funds.ts:1-13),
  but the sample catalog also uses 'Large & Mid Cap Equity', which is outside it.
  So a category is any string, and the label lemmas are stated only for the
  declared labels.
- Funds with equal returns keep their catalog order, because the sort is stable and
  the comparator returns 0 for them (src/context/FundsContext.tsx:112-120).
  `Recommendation.TiesKeepCatalogOrder` states exactly that.
- A deep link to a fund's page never shows the fund on a fresh load. The catalog
  starts as an empty list and is filled a second later
  (src/context/FundsContext.tsx:27, 40-43). Meanwhile the detail page looks the id
  up in the empty list and redirects (src/pages/FundDetailsPage.tsx:19-24).
  `FundDetails.DeepLinkBeforeLoadRedirects` states the redirect.

## Model

| member | source | states |
|---|---|---|
| Funds.FindById | src/pages/FundDetailsPage.tsx:20 | `find` by id: none exactly when no fund carries the id, otherwise a catalog fund with that id and no earlier fund carrying it |
| Funds.FindOwnId | src/types/funds.ts:57-58 | in a catalog whose ids are unique, looking up a fund's own id returns that fund |
| Funds.SectorShareOfEntry | src/types/funds.ts:48-50 | reading back an entry's sector from the allocation object yields the share stored with it |
| Funds.SectorShareHasEntry | src/types/funds.ts:48-50 | every sector the allocation object answers for is one of its entries |
| Funds.Label | src/types/funds.ts:1-13 | the text of each of the twelve declared category labels, character for character |
| UserProfiles.IsProfileComplete | src/context/UserContext.tsx:44-50 | a profile is complete when it is present, its name is non-empty and its age, income and investment amount are all positive |
| UserProfiles.AbsentProfileIncomplete | src/context/UserContext.tsx:44-45 | with no profile, the profile is never complete |
| UserProfiles.DefaultProfileIncomplete | src/context/UserContext.tsx:23-31 | the default profile (empty name, zero income and amount) is not complete, although its age of 30 is positive |
| UserProfiles.CompletenessIgnoresPreferences | src/context/UserContext.tsx:44-50 | changing risk appetite, goal or horizon never changes whether a profile is complete |
| UserProfiles.EnumerationsClosed | src/context/UserContext.tsx:3-5 | there are exactly 3 risk appetites, 4 goals and 3 horizons, and every value is one of them |
| Seqs.Filter | src/context/FundsContext.tsx:88-109 | `filter` never returns more elements than it was given |
| Seqs.FilterCounts | src/context/FundsContext.tsx:88-109 | `filter` keeps each element that satisfies the predicate exactly as many times as the input holds it, and no other element |
| Seqs.FilterMembers | src/context/FundsContext.tsx:88-109 | an element is in the filtered list exactly when it is in the input and satisfies the predicate |
| Seqs.FilterIsSubsequence | src/context/FundsContext.tsx:88-109 | the filtered list keeps the input's order |
| Seqs.FilterPrefix | src/pages/FundDetailsPage.tsx:38-40 | filtering a prefix of the input gives a prefix of the filtered whole |
| Strings.Contains | src/context/FundsContext.tsx:101-107 | `includes`: some position of the text starts an occurrence of the word |
| Seqs.Take | src/context/FundsContext.tsx:123 | `slice(0, n)` is a prefix of length min(n, length) |
| StableSort.SortDesc | src/context/FundsContext.tsx:112-120 | the sort returns a permutation of its input in non-increasing order of the key |
| StableSort.Compare | src/context/FundsContext.tsx:114-118 | the comparator `b - a` on the horizon's return: negative exactly when `a` returns more and must come first, 0 on ties |
| StableSort.InsertSorted | src/context/FundsContext.tsx:112-120 | inserting one element into a non-increasing sequence keeps it non-increasing |
| StableSort.SortPair | src/context/FundsContext.tsx:112-120 | two elements whose keys ascend come out in the opposite order |
| StableSort.TakeDominates | src/context/FundsContext.tsx:112-123 | an element of a descending sequence that a cut leaves out has a key no greater than any element kept |
| StableSort.SortDescStable | src/context/FundsContext.tsx:112-120 | for every key value, the elements with that key keep their input order |
| StableSort.SortedStableIsUnique | src/context/FundsContext.tsx:112-120 | two descending sequences with the same per-key orders are equal |
| StableSort.SortSpecDeterminesResult | src/context/FundsContext.tsx:112-120 | any descending arrangement that keeps per-key input order is the sort's result |
| Recommendation.RiskAccepts | src/context/FundsContext.tsx:88-96 | the risk stage's test: a low appetite accepts low-risk funds, a moderate one low- and moderate-risk funds, a high one every fund |
| Recommendation.GoalAccepts | src/context/FundsContext.tsx:99-109 | the goal stage's test: retirement and education need "Debt" or "Balanced" in the category, wealth "Equity" or "Balanced", and any other goal "Liquid" or "Debt" |
| Recommendation.RankingReturn | src/context/FundsContext.tsx:112-120 | the comparator ranks a short-term horizon by the one-year return, a medium-term horizon by the three-year return, and any other horizon by the five-year return |
| Recommendation.Candidates | src/context/FundsContext.tsx:88-109 | the funds that pass both filters are exactly the catalog funds that the risk test and the goal test both accept, in catalog order, each as many times as the catalog holds it |
| Recommendation.AllAdmissibleKept | src/context/FundsContext.tsx:88-109 | when every catalog fund passes both tests, the two filters return the catalog unchanged |
| Recommendation.RecommendFunds | src/context/FundsContext.tsx:81-124 | the output has min(5, number of passing funds) elements, each a catalog fund passing both tests, in non-increasing order of the horizon's return |
| Recommendation.ShortAdmissibleCatalog | src/context/FundsContext.tsx:88-123 | a catalog of at most five funds that all pass both tests comes back whole, sorted by the horizon's return |
| Recommendation.RecommendationsDescend | src/context/FundsContext.tsx:112-120 | for each horizon, the output is non-increasing in one-year, three-year or five-year return respectively |
| Recommendation.LowRiskSoundness | src/context/FundsContext.tsx:89-90 | a low appetite yields only low-risk funds |
| Recommendation.ModerateRiskSoundness | src/context/FundsContext.tsx:91-92 | a moderate appetite never yields a high-risk fund |
| Recommendation.HighAppetiteKeepsAll | src/context/FundsContext.tsx:93-95 | with a high appetite the risk filter excludes nothing |
| Recommendation.RetirementSoundness | src/context/FundsContext.tsx:100-101 | every fund recommended for retirement has "Debt" or "Balanced" in its category |
| Recommendation.EducationSoundness | src/context/FundsContext.tsx:102-103 | every fund recommended for education has "Debt" or "Balanced" in its category |
| Recommendation.WealthSoundness | src/context/FundsContext.tsx:104-105 | every fund recommended for wealth creation has "Equity" or "Balanced" in its category |
| Recommendation.ShortTermSoundness | src/context/FundsContext.tsx:106-107 | every fund recommended for a short-term goal has "Liquid" or "Debt" in its category |
| Recommendation.NoCandidatesNoRecommendations | src/context/FundsContext.tsx:88-123 | when no catalog fund passes both tests, including when the catalog is empty, the output is empty |
| Recommendation.TopK | src/context/FundsContext.tsx:112-123 | a passing fund left out of the output has a horizon return no greater than that of any output fund |
| Recommendation.TiesKeepCatalogOrder | src/context/FundsContext.tsx:112-123 | for every return value, the output funds with that return are a prefix of the passing funds with that return, in catalog order |
| Recommendation.OutputIsPermutedSubsequence | src/context/FundsContext.tsx:88-123 | the output fits inside the catalog as a multiset, and it is a reordering of some subsequence of the catalog |
| Recommendation.AnyStableSortAgrees | src/context/FundsContext.tsx:112-123 | any stable descending arrangement of the passing funds, cut to five, equals the engine's output |
| Recommendation.DebtWord | src/types/funds.ts:1-13 | the text of a declared label contains "Debt" exactly when it is one of the three debt labels |
| Recommendation.BalancedWord | src/types/funds.ts:1-13 | the text of a declared label contains "Balanced" exactly when it is "Balanced Advantage" |
| Recommendation.EquityWord | src/types/funds.ts:1-13 | the text of a declared label contains "Equity" exactly when it is one of the five equity labels |
| Recommendation.LiquidWord | src/types/funds.ts:1-13 | the text of a declared label contains "Liquid" exactly when it is "Liquid Funds" |
| Recommendation.GoalFilterMatchesFamilies | src/context/FundsContext.tsx:99-109 | on every declared label, the substring goal test passes exactly when the label's family is one the goal asks for |
| Recommendation.UnreachableAndLiquidLabels | src/context/FundsContext.tsx:99-109 | "ELSS" and "Index Funds" pass no goal, and "Liquid Funds" passes only the short-term goal |
| Scenarios.LoneDebtFund | src/context/FundsContext.tsx:81-124 | a catalog holding one low-risk "Debt Medium Term" fund recommends exactly that fund to a low-risk retirement saver |
| Scenarios.ModerateDropsHighRisk | src/context/FundsContext.tsx:88-109 | a moderate wealth seeker gets the moderate large-cap fund and not the high-risk mid-cap fund, although the mid-cap fund returns more |
| Scenarios.HigherReturnFirst | src/context/FundsContext.tsx:112-123 | two short-term debt funds returning 10 and 20 come out with the 20 first |
| FundDetails.ResolveDetail | src/pages/FundDetailsPage.tsx:18-35 | a selected fund is shown; otherwise a non-empty id is looked up: when some catalog fund carries it, the first such fund is shown (never the loading view), and a miss redirects to the recommendations; without an id the page keeps loading |
| FundDetails.IsPeer | src/pages/FundDetailsPage.tsx:38-39 | a peer is a fund with a different id and the same category as the selected fund |
| FundDetails.DeepLinkBeforeLoadRedirects | src/pages/FundDetailsPage.tsx:19-24 | a deep link to a fund that arrives while the catalog is still the initial empty list redirects to the recommendations instead of showing the fund |
| FundDetails.PeerFunds | src/pages/FundDetailsPage.tsx:38-40 | at most 3 peers, each a catalog fund with a different id and the same category, in catalog order; a peer entry, even a repeated one, is left out only when the list is full; the peers of any start of the catalog holding at most 3 peers begin the list, so the list is the first three peers |
| FundDetails.CategoryFunds | src/pages/FundDetailsPage.tsx:63 | the category subset holds exactly the catalog funds of that category, including the selected fund itself, in catalog order and each as many times as the catalog holds it |
| FundDetails.FoldMax | src/pages/FundDetailsPage.tsx:69-71 | folding `Math.max` from a seed gives the largest of the seed and the values |
| FundDetails.FoldMin | src/pages/FundDetailsPage.tsx:73-75 | folding `Math.min` from a seed gives the smallest of the seed and the values |
| FundDetails.MeanIsAverage | src/pages/FundDetailsPage.tsx:78-83 | the category mean is 0 for an empty subset and otherwise a value that, times the count, gives the sum |
| FundDetails.Mean | src/pages/FundDetailsPage.tsx:78-83 | the running total divided by the count, left at 0 when the category subset is empty |
| FundDetails.AverageBetween | src/pages/FundDetailsPage.tsx:78-83 | an average of at least one value lies between any lower and upper bounds of the values |
| FundDetails.MeanBetweenBounds | src/pages/FundDetailsPage.tsx:78-83 | the average of a non-empty subset lies between any lower and upper bounds of its values |
| FundDetails.MetricRow | src/pages/FundDetailsPage.tsx:62-83 | a table row carries the fund's own value, the category mean (0 when empty) and the seeded maximum and minimum; for a non-empty category, lowest <= average <= highest |
| FundDetails.SummaryOrdered | src/pages/FundDetailsPage.tsx:62-83 | any row that summarizes at least one value has lowest <= average <= highest |
| FundDetails.SingleValueCollapses | src/pages/FundDetailsPage.tsx:62-83 | a single value lying inside the seeds is reported as the average, the highest and the lowest |
| FundDetails.ReturnsComparison | src/pages/FundDetailsPage.tsx:43-109 | three rows named 1 Year, 3 Years and 5 Years, each carrying the fund's own return; Highest is the max of 0 and the category's values (so >= 0); Lowest is the min of 100 and those values (so <= 100); lowest <= average <= highest when the fund is in the catalog |
| FundDetails.SingleFundCategoryReturns | src/pages/FundDetailsPage.tsx:62-108 | a fund alone in its category with a return in [0, 100] sees that return as average, highest and lowest |
| FundDetails.EmptyCategoryReturns | src/pages/FundDetailsPage.tsx:44-83 | an empty category gives average 0, highest 0 and lowest 100 rather than dividing by zero |
| FundDetails.VolatilityComparison | src/pages/FundDetailsPage.tsx:112-179 | three rows named Std Deviation, Beta and Sharpe Ratio; deviation and beta use max(0, values) and min(100, values); the Sharpe row's Highest is always >= 100 and its Lowest always <= 0 |
| FundDetails.VolatilityLowSeed | src/pages/FundDetailsPage.tsx:119-123 | the seed of the lowest-value fold as written: 100 for deviation and beta, 0 for the Sharpe ratio |
| FundDetails.VolatilityHighSeed | src/pages/FundDetailsPage.tsx:125-129 | the seed of the highest-value fold as written: 0 for deviation and beta, 100 for the Sharpe ratio |
| FundDetails.SharpeExtremesNotAttained | src/pages/FundDetailsPage.tsx:119-144 | a lone fund with Sharpe ratio 1.2 is shown a category Sharpe highest of 100 and lowest of 0 |
| FundDetails.CorrectedVolatilityComparison | src/pages/FundDetailsPage.tsx:112-179 | with the Sharpe seeds set like the other rows, every row reports max(0, values) and min(100, values) |
| FundDetails.CorrectedExtremesAttained | src/pages/FundDetailsPage.tsx:119-144 | with corrected seeds, for a non-empty category whose values lie in [0, 100], both extremes are values some fund of the category has |
| FundDetails.SectorAllocationData | src/pages/FundDetailsPage.tsx:182-187 | one slice per allocation key, with distinct names, each carrying the share stored under its key, and every key represented |
| RecommendationsPage.TimeframeReturn | src/pages/RecommendationsPage.tsx:46-52 | each of the three selector choices reads its own return, one-year, three-year or five-year; the five-year return is the `else` branch |
| RecommendationsPage.ReduceBest | src/pages/RecommendationsPage.tsx:45-53 | the strict-`>` reducer returns a fund whose return is at least the seed's and every later fund's; it replaces the seed only with the first fund that beats it |
| RecommendationsPage.BestFund | src/pages/RecommendationsPage.tsx:42-54 | null exactly for an empty list; otherwise a listed fund with the largest return for the timeframe, the earliest one on ties |
| RecommendationsPage.BestOfLeaderIsFirst | src/pages/RecommendationsPage.tsx:42-54 | when the first fund returns at least as much as every other, it is the best fund |
| RecommendationsPage.BestOfRankedIsFirst | src/pages/RecommendationsPage.tsx:45-53 | on the engine's output, with the timeframe its horizon ranks by, the best fund is the first recommendation |
| RecommendationsPage.HandleFundClick | src/pages/RecommendationsPage.tsx:22-28 | a click on an id present in the list selects the first fund in the list carrying that id, as `find` returns, and moves the route to its detail page; an absent id changes nothing |

## Left out

- React state (including the timeframe selector's initial three-year choice), context providers, effects and routing. The selected fund and the route are explicit values (`PageState`, `DetailView`). The provider effect that feeds the engine (src/context/FundsContext.tsx:51-62) is not modelled.
- The simulated one-second catalog load with `setTimeout` and its error branch (src/context/FundsContext.tsx:36-48). This is asynchronous scaffolding.
- `generateHistoricalData` in src/data/mockFunds.ts, because it uses `Math.random` and the clock. The literal 501-line sample catalog is not transcribed. The scenarios use small hand-made catalogs instead.
- IEEE-754 rounding of sums and divisions, `NaN`, and infinities. Metrics are exact reals. So profile completeness is exactly "name non-empty and the three figures positive", and no `NaN` case arises.
- Date and number formatting, the formatters module, and chart rendering.
- `Number(...)` coercion in the profile form (src/pages/ProfilePage.tsx:33-35), `FundCard`'s `getReturn`, and the home, header, footer and app shell files. These are input coercion or markup.
- FundDetails.SectorAllocationData: assumes the allocation's entries come in the order `Object.entries` lists them. JavaScript moves integer-like keys to the front, and the model does not reorder them.

## Findings

| source | as written | input that shows it | evidently intended | confidence | as-written member | corrected member |
|---|---|---|---|---|---|---|
| src/pages/FundDetailsPage.tsx:119-129 | the Sharpe ratio's lowest is seeded at 0 and its highest at 100, the reverse of the other rows, so the reported highest is max(100, values) and the lowest min(0, values) | a category holding one fund with Sharpe ratio 1.2: the table shows highest 100 and lowest 0, values no fund has | seed the Sharpe lowest at 100 and highest at 0 like the other rows, so the extremes are the category's own | not executed | FundDetails.SharpeExtremesNotAttained | FundDetails.CorrectedVolatilityComparison |
