/**
  The fund-detail page's computations: resolving the fund named in the address,
  the peer list, the category comparison tables and the sector breakdown.
 */
module FundDetails {
  import opened Wrappers
  import opened Seqs
  import opened Funds

  /** What the page shows once the lookup effect has run. */
  datatype DetailView = Loading | Showing(fund: Fund) | RedirectToRecommendations

  /**
    An already selected fund is shown as is. Otherwise a non-empty id from the
    address is looked up in the catalog: a hit is selected and shown, a miss sends
    the user back to the recommendations. Without an id the page keeps waiting.
   */
  function ResolveDetail(selected: Option<Fund>, id: Option<string>, catalog: seq<Fund>): (v: DetailView)
    ensures selected.Some? ==> v == Showing(selected.value)
    ensures selected.None? && (id.None? || id.value == "") ==> v == Loading
    ensures selected.None? && id.Some? && id.value != "" ==>
      && !v.Loading?
      && (v.RedirectToRecommendations? <==> forall i :: 0 <= i < |catalog| ==> catalog[i].id != id.value)
      && (v.Showing? ==> exists i :: 0 <= i < |catalog| && catalog[i] == v.fund && v.fund.id == id.value
                                   && forall j :: 0 <= j < i ==> catalog[j].id != id.value)
  {
    if selected.Some? then Showing(selected.value)
    else if id.None? || id.value == "" then Loading
    else
      match FindById(catalog, id.value)
      case Some(f) => Showing(f)
      case None => RedirectToRecommendations
  }

  /**
    A deep link that arrives before the catalog has loaded: the lookup runs on the
    still-empty list, misses, and redirects to the recommendations.
   */
  lemma DeepLinkBeforeLoadRedirects(id: string)
    requires id != ""
    ensures ResolveDetail(None, Some(id), []) == RedirectToRecommendations
  {
  }

  const MaxPeers: nat := 3

  /** Another fund (by id) of the same category. */
  predicate IsPeer(selected: Fund, f: Fund) {
    f.id != selected.id && f.category == selected.category
  }

  function PeerTest(selected: Fund): Fund -> bool {
    (f: Fund) => IsPeer(selected, f)
  }

  function AllPeers(catalog: seq<Fund>, selected: Fund): seq<Fund> {
    Filter(catalog, PeerTest(selected))
  }

  /**
    Up to three peers, in catalog order. A peer entry is left out only when three
    earlier peers already fill the list: the peers of any stretch of the catalog's
    start that holds at most three of them begin the list.
   */
  function PeerFunds(catalog: seq<Fund>, selected: Fund): (r: seq<Fund>)
    ensures |r| <= MaxPeers
    ensures forall f :: f in r ==> f in catalog && f.id != selected.id && f.category == selected.category
    ensures IsSubsequence(r, catalog)
    ensures forall f :: IsPeer(selected, f) && multiset(r)[f] < multiset(catalog)[f] ==> |r| == MaxPeers
    ensures forall k :: 0 <= k <= |catalog| && |AllPeers(catalog[..k], selected)| <= MaxPeers ==>
      AllPeers(catalog[..k], selected) <= r
  {
    var all := AllPeers(catalog, selected);
    var r := Take(all, MaxPeers);
    FilterCounts(catalog, PeerTest(selected));
    FilterMembers(catalog, PeerTest(selected));
    FilterIsSubsequence(catalog, PeerTest(selected));
    forall k | 0 <= k <= |catalog| && |AllPeers(catalog[..k], selected)| <= MaxPeers
      ensures AllPeers(catalog[..k], selected) <= r
    {
      FilterPrefix(catalog, k, PeerTest(selected));
    }
    PrefixIsSubsequence(r, all);
    SubsequenceTransitive(r, all, catalog);
    assert forall f :: f in r ==> f in all by {
      forall f | f in r ensures f in all {
        var i :| 0 <= i < |r| && r[i] == f;
        assert all[i] == f;
      }
    }
    r
  }

  function CategoryTest(category: Category): Fund -> bool {
    (f: Fund) => f.category == category
  }

  /**
    The funds of one category, the selected fund included when it is in the
    catalog, each as often as the catalog lists it.
   */
  function CategoryFunds(catalog: seq<Fund>, category: Category): (r: seq<Fund>)
    ensures forall f :: f in r <==> f in catalog && f.category == category
    ensures IsSubsequence(r, catalog)
    ensures forall f :: multiset(r)[f] == if f.category == category then multiset(catalog)[f] else 0
  {
    FilterCounts(catalog, CategoryTest(category));
    FilterMembers(catalog, CategoryTest(category));
    FilterIsSubsequence(catalog, CategoryTest(category));
    Filter(catalog, CategoryTest(category))
  }

  function Sum(xs: seq<real>): real {
    if |xs| == 0 then 0.0 else xs[0] + Sum(xs[1..])
  }

  /** The running total divided by the count, left at 0 when there is nothing to count. */
  function Mean(xs: seq<real>): real {
    if |xs| > 0 then Sum(xs) / (|xs| as real) else 0.0
  }

  /** `Math.max` folded over `xs` from the seed `acc`. */
  function FoldMax(acc: real, xs: seq<real>): (r: real)
    ensures IsMaxOf(r, acc, xs)
    decreases |xs|
  {
    if |xs| == 0 then acc
    else FoldMax(if xs[0] > acc then xs[0] else acc, xs[1..])
  }

  /** `Math.min` folded over `xs` from the seed `acc`. */
  function FoldMin(acc: real, xs: seq<real>): (r: real)
    ensures IsMinOf(r, acc, xs)
    decreases |xs|
  {
    if |xs| == 0 then acc
    else FoldMin(if xs[0] < acc then xs[0] else acc, xs[1..])
  }

  lemma {:induction false} SumAtLeast(xs: seq<real>, lo: real)
    requires forall i :: 0 <= i < |xs| ==> lo <= xs[i]
    ensures (|xs| as real) * lo <= Sum(xs)
  {
    if |xs| > 0 {
      SumAtLeast(xs[1..], lo);
    }
  }

  lemma {:induction false} SumAtMost(xs: seq<real>, hi: real)
    requires forall i :: 0 <= i < |xs| ==> xs[i] <= hi
    ensures Sum(xs) <= (|xs| as real) * hi
  {
    if |xs| > 0 {
      SumAtMost(xs[1..], hi);
    }
  }

  /** `m` is the largest of `seed` and the values. */
  ghost predicate IsMaxOf(m: real, seed: real, xs: seq<real>) {
    && seed <= m && (forall i :: 0 <= i < |xs| ==> xs[i] <= m)
    && (m == seed || m in xs)
  }

  /** `m` is the smallest of `seed` and the values. */
  ghost predicate IsMinOf(m: real, seed: real, xs: seq<real>) {
    && m <= seed && (forall i :: 0 <= i < |xs| ==> m <= xs[i])
    && (m == seed || m in xs)
  }

  /** `a` is the average of the values: `a` times their count is their sum, and 0 when there are none. */
  ghost predicate IsAverageOf(a: real, xs: seq<real>) {
    && (|xs| == 0 ==> a == 0.0)
    && (|xs| > 0 ==> a * (|xs| as real) == Sum(xs))
  }

  /** The mean is the average: times the count it gives back the total. */
  lemma MeanIsAverage(xs: seq<real>)
    ensures IsAverageOf(Mean(xs), xs)
  {
  }

  /** Dividing both sides of an inequality by a positive count keeps it. */
  lemma CancelCount(n: real, a: real, b: real)
    requires n > 0.0 && n * a <= n * b
    ensures a <= b
  {
  }

  /** The average of at least one value lies between any bounds of the values. */
  lemma AverageBetween(values: seq<real>, avg: real, lo: real, hi: real)
    requires |values| > 0 && IsAverageOf(avg, values)
    requires forall i :: 0 <= i < |values| ==> lo <= values[i] <= hi
    ensures lo <= avg <= hi
  {
    var n := |values| as real;
    SumAtLeast(values, lo);
    SumAtMost(values, hi);
    assert n * avg == Sum(values);
    CancelCount(n, lo, avg);
    CancelCount(n, avg, hi);
  }

  /** A mean lies between any lower and any upper bound of the values. */
  lemma MeanBetweenBounds(xs: seq<real>, lo: real, hi: real)
    requires |xs| > 0
    requires forall i :: 0 <= i < |xs| ==> lo <= xs[i] <= hi
    ensures lo <= Mean(xs) <= hi
  {
    MeanIsAverage(xs);
    AverageBetween(xs, Mean(xs), lo, hi);
  }

  /** One row of a comparison table. */
  datatype ComparisonRow = ComparisonRow(name: string, thisFund: real, categoryAvg: real, highest: real, lowest: real)

  /**
    `row` reports `values` with the given seeds: its highest is the largest of
    `highSeed` and the values, its lowest the smallest of `lowSeed` and the values,
    and its average is their mean, or 0 when there are none.
   */
  ghost predicate Summarizes(row: ComparisonRow, values: seq<real>, lowSeed: real, highSeed: real) {
    && IsMaxOf(row.highest, highSeed, values)
    && IsMinOf(row.lowest, lowSeed, values)
    && IsAverageOf(row.categoryAvg, values)
  }

  /** A summary of at least one value puts the average between the lowest and the highest. */
  lemma SummaryOrdered(row: ComparisonRow, values: seq<real>, lowSeed: real, highSeed: real)
    requires Summarizes(row, values, lowSeed, highSeed) && |values| > 0
    ensures row.lowest <= row.categoryAvg <= row.highest
  {
    AverageBetween(values, row.categoryAvg, row.lowest, row.highest);
  }

  /** One table row: the fund's own value, then the category's mean and seeded extremes. */
  function MetricRow(name: string, thisFund: real, values: seq<real>, lowSeed: real, highSeed: real)
    : (row: ComparisonRow)
    ensures row.name == name && row.thisFund == thisFund
    ensures Summarizes(row, values, lowSeed, highSeed)
    ensures |values| > 0 ==> row.lowest <= row.categoryAvg <= row.highest
  {
    var row := ComparisonRow(name, thisFund, Mean(values), FoldMax(highSeed, values), FoldMin(lowSeed, values));
    MeanIsAverage(values);
    assert Summarizes(row, values, lowSeed, highSeed);
    if |values| > 0 then
      SummaryOrdered(row, values, lowSeed, highSeed);
      row
    else row
  }

  /** A lone value inside the seeds is reported as the average, the highest and the lowest. */
  lemma SingleValueCollapses(row: ComparisonRow, v: real, lowSeed: real, highSeed: real)
    requires Summarizes(row, [v], lowSeed, highSeed)
    requires highSeed <= v <= lowSeed
    ensures row.categoryAvg == row.highest == row.lowest == v
  {
    assert [v][1..] == [];
    assert Sum([v]) == v;
  }

  /** The horizons of the returns table, in row order: 1, 3 and 5 years. */
  function ReturnsField(i: nat, r: Returns): real
    requires i < 3
  {
    if i == 0 then r.oneYear else if i == 1 then r.threeYear else r.fiveYear
  }

  const ReturnsRowNames: seq<string> := ["1 Year", "3 Years", "5 Years"]
  const ReturnsLowSeed: real := 100.0
  const ReturnsHighSeed: real := 0.0

  function ReturnsColumn(funds: seq<Fund>, i: nat): (vs: seq<real>)
    requires i < 3
    ensures |vs| == |funds| && forall j :: 0 <= j < |funds| ==> vs[j] == ReturnsField(i, funds[j].performance)
  {
    seq(|funds|, j requires 0 <= j < |funds| => ReturnsField(i, funds[j].performance))
  }

  /**
    The returns comparison: three rows in fixed order, each holding the selected
    fund's own return and the mean and seeded extremes over its category.
   */
  function ReturnsComparison(catalog: seq<Fund>, selected: Fund): (rows: seq<ComparisonRow>)
    ensures |rows| == 3
    ensures forall i :: 0 <= i < 3 ==>
      && rows[i].name == ReturnsRowNames[i]
      && rows[i].thisFund == ReturnsField(i, selected.performance)
      && Summarizes(rows[i], ReturnsColumn(CategoryFunds(catalog, selected.category), i),
                    ReturnsLowSeed, ReturnsHighSeed)
    ensures forall i :: 0 <= i < 3 ==> rows[i].highest >= 0.0 && rows[i].lowest <= 100.0
    ensures selected in catalog ==> forall i :: 0 <= i < 3 ==> rows[i].lowest <= rows[i].categoryAvg <= rows[i].highest
  {
    var peers := CategoryFunds(catalog, selected.category);
    assert selected in catalog ==> selected in peers;
    seq(3, i requires 0 <= i < 3 =>
      MetricRow(ReturnsRowNames[i], ReturnsField(i, selected.performance), ReturnsColumn(peers, i),
                ReturnsLowSeed, ReturnsHighSeed))
  }

  /**
    A fund alone in its category, with a return inside the seeds, sees that return
    as its category's average, highest and lowest.
   */
  lemma SingleFundCategoryReturns(catalog: seq<Fund>, selected: Fund, i: nat)
    requires i < 3
    requires CategoryFunds(catalog, selected.category) == [selected]
    requires 0.0 <= ReturnsField(i, selected.performance) <= 100.0
    ensures var row := ReturnsComparison(catalog, selected)[i];
      row.categoryAvg == row.highest == row.lowest == row.thisFund
  {
    var row := ReturnsComparison(catalog, selected)[i];
    assert ReturnsColumn([selected], i) == [ReturnsField(i, selected.performance)];
    SingleValueCollapses(row, ReturnsField(i, selected.performance), ReturnsLowSeed, ReturnsHighSeed);
  }

  /**
    A category with no fund in the catalog degrades to the seeds without dividing
    by zero: average 0, highest 0 and lowest 100, so the lowest exceeds the average.
   */
  lemma EmptyCategoryReturns(catalog: seq<Fund>, selected: Fund, i: nat)
    requires i < 3
    requires forall f :: f in catalog ==> f.category != selected.category
    ensures var row := ReturnsComparison(catalog, selected)[i];
      row.categoryAvg == 0.0 && row.highest == 0.0 && row.lowest == 100.0
  {
    var peers := CategoryFunds(catalog, selected.category);
    assert ReturnsColumn(peers, i) == [];
  }

  /** The metrics of the volatility table, in row order: deviation, beta, Sharpe ratio. */
  function VolatilityField(i: nat, v: Volatility): real
    requires i < 3
  {
    if i == 0 then v.standardDeviation else if i == 1 then v.beta else v.sharpeRatio
  }

  const VolatilityRowNames: seq<string> := ["Std Deviation", "Beta", "Sharpe Ratio"]

  /** The seeds as written: deviation and beta start at 100 / 0, the Sharpe ratio at 0 / 100. */
  function VolatilityLowSeed(i: nat): real {
    if i == 2 then 0.0 else 100.0
  }

  function VolatilityHighSeed(i: nat): real {
    if i == 2 then 100.0 else 0.0
  }

  function VolatilityColumn(funds: seq<Fund>, i: nat): (vs: seq<real>)
    requires i < 3
    ensures |vs| == |funds| && forall j :: 0 <= j < |funds| ==> vs[j] == VolatilityField(i, funds[j].volatility)
  {
    seq(|funds|, j requires 0 <= j < |funds| => VolatilityField(i, funds[j].volatility))
  }

  /**
    The volatility comparison as written: three rows in fixed order. Because the
    Sharpe row's seeds are swapped, its highest is never below 100 and its lowest
    never above 0, whatever the category holds.
   */
  function VolatilityComparison(catalog: seq<Fund>, selected: Fund): (rows: seq<ComparisonRow>)
    ensures |rows| == 3
    ensures forall i :: 0 <= i < 3 ==>
      && rows[i].name == VolatilityRowNames[i]
      && rows[i].thisFund == VolatilityField(i, selected.volatility)
      && Summarizes(rows[i], VolatilityColumn(CategoryFunds(catalog, selected.category), i),
                    VolatilityLowSeed(i), VolatilityHighSeed(i))
    ensures rows[0].highest >= 0.0 && rows[0].lowest <= 100.0
    ensures rows[1].highest >= 0.0 && rows[1].lowest <= 100.0
    ensures rows[2].highest >= 100.0 && rows[2].lowest <= 0.0
    ensures selected in catalog ==> forall i :: 0 <= i < 3 ==> rows[i].lowest <= rows[i].categoryAvg <= rows[i].highest
  {
    var peers := CategoryFunds(catalog, selected.category);
    assert selected in catalog ==> selected in peers;
    seq(3, i requires 0 <= i < 3 =>
      MetricRow(VolatilityRowNames[i], VolatilityField(i, selected.volatility), VolatilityColumn(peers, i),
                VolatilityLowSeed(i), VolatilityHighSeed(i)))
  }

  /**
    A lone fund whose Sharpe ratio is 1.2 is reported with a category highest of
    100 and a lowest of 0: neither extreme is a value any fund has.
   */
  lemma SharpeExtremesNotAttained(selected: Fund)
    requires selected.volatility.sharpeRatio == 1.2
    ensures var sharpe := VolatilityComparison([selected], selected)[2];
      sharpe.highest == 100.0 && sharpe.lowest == 0.0 && sharpe.thisFund == 1.2
  {
    var rows := VolatilityComparison([selected], selected);
    assert CategoryFunds([selected], selected.category) == [selected];
    assert VolatilityColumn([selected], 2) == [1.2];
  }

  /**
    The Sharpe row seeded like the other two (lowest from 100, highest from 0), so
    that every row reports the category's own extremes.
   */
  function CorrectedVolatilityComparison(catalog: seq<Fund>, selected: Fund): (rows: seq<ComparisonRow>)
    ensures |rows| == 3
    ensures forall i :: 0 <= i < 3 ==>
      && rows[i].name == VolatilityRowNames[i]
      && rows[i].thisFund == VolatilityField(i, selected.volatility)
      && Summarizes(rows[i], VolatilityColumn(CategoryFunds(catalog, selected.category), i), 100.0, 0.0)
    ensures forall i :: 0 <= i < 3 ==> rows[i].highest >= 0.0 && rows[i].lowest <= 100.0
    ensures selected in catalog ==> forall i :: 0 <= i < 3 ==> rows[i].lowest <= rows[i].categoryAvg <= rows[i].highest
  {
    var peers := CategoryFunds(catalog, selected.category);
    assert selected in catalog ==> selected in peers;
    seq(3, i requires 0 <= i < 3 =>
      MetricRow(VolatilityRowNames[i], VolatilityField(i, selected.volatility), VolatilityColumn(peers, i),
                100.0, 0.0))
  }

  /**
    With the corrected seeds, a non-empty category whose values lie in [0, 100]
    reports extremes that some fund of the category actually has.
   */
  lemma CorrectedExtremesAttained(catalog: seq<Fund>, selected: Fund, i: nat)
    requires i < 3
    requires |CategoryFunds(catalog, selected.category)| > 0
    requires forall f :: f in CategoryFunds(catalog, selected.category) ==>
      0.0 <= VolatilityField(i, f.volatility) <= 100.0
    ensures var row := CorrectedVolatilityComparison(catalog, selected)[i];
      && (exists f :: f in CategoryFunds(catalog, selected.category) && row.highest == VolatilityField(i, f.volatility))
      && (exists f :: f in CategoryFunds(catalog, selected.category) && row.lowest == VolatilityField(i, f.volatility))
  {
    var peers := CategoryFunds(catalog, selected.category);
    var values := VolatilityColumn(peers, i);
    var row := CorrectedVolatilityComparison(catalog, selected)[i];
    assert peers[0] in peers;
    if row.highest == 0.0 {
      assert values[0] <= row.highest;
      assert row.highest == values[0];
    }
    assert row.highest in values;
    var h :| 0 <= h < |values| && values[h] == row.highest;
    assert peers[h] in peers;
    if row.lowest == 100.0 {
      assert row.lowest <= values[0];
      assert row.lowest == values[0];
    }
    assert row.lowest in values;
    var l :| 0 <= l < |values| && values[l] == row.lowest;
    assert peers[l] in peers;
  }

  /** One (sector, share) pair for the allocation chart. */
  datatype SectorSlice = SectorSlice(name: string, value: real)

  /**
    The sector chart data: one slice per key of the allocation, each carrying the
    share stored under its key, and every key represented once.
   */
  function SectorAllocationData(alloc: SectorAllocation): (r: seq<SectorSlice>)
    ensures |r| == |alloc|
    ensures forall i, j :: 0 <= i < j < |r| ==> r[i].name != r[j].name
    ensures forall i :: 0 <= i < |r| ==> SectorShare(alloc, r[i].name) == Some(r[i].value)
    ensures forall sector :: SectorShare(alloc, sector).Some? ==>
      SectorSlice(sector, SectorShare(alloc, sector).value) in r
  {
    var r := seq(|alloc|, i requires 0 <= i < |alloc| => SectorSlice(alloc[i].0, alloc[i].1));
    assert forall i :: 0 <= i < |r| ==> SectorShare(alloc, r[i].name) == Some(r[i].value) by {
      forall i | 0 <= i < |r| ensures SectorShare(alloc, r[i].name) == Some(r[i].value) {
        SectorShareOfEntry(alloc, i);
      }
    }
    assert forall sector :: SectorShare(alloc, sector).Some? ==>
        SectorSlice(sector, SectorShare(alloc, sector).value) in r by {
      forall sector | SectorShare(alloc, sector).Some?
        ensures SectorSlice(sector, SectorShare(alloc, sector).value) in r
      {
        SectorShareHasEntry(alloc, sector);
        var i :| 0 <= i < |alloc| && alloc[i] == (sector, SectorShare(alloc, sector).value);
        assert r[i] == SectorSlice(sector, SectorShare(alloc, sector).value);
      }
    }
    r
  }
}
