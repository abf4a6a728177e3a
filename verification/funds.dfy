/** The fund record and its parts, as declared by the application's type module. */
module Funds {
  import opened Wrappers

  /**
    A category label. The declared union has twelve labels, but the sample catalog
    also uses "Large & Mid Cap Equity", and the goal filter works on the text of the
    label, so a category is kept as a string.
   */
  type Category = string

  /** The twelve labels of the declared category union. */
  datatype DeclaredCategory =
    | LargeCapEquity | MidCapEquity | SmallCapEquity | MultiCapEquity
    | BalancedAdvantage | HybridEquity
    | DebtShortTerm | DebtMediumTerm | DebtLongTerm
    | LiquidFunds | IndexFunds | Elss

  /** The text of a declared label. */
  function Label(c: DeclaredCategory): Category {
    match c
    case LargeCapEquity => "Large Cap Equity"
    case MidCapEquity => "Mid Cap Equity"
    case SmallCapEquity => "Small Cap Equity"
    case MultiCapEquity => "Multi Cap Equity"
    case BalancedAdvantage => "Balanced Advantage"
    case HybridEquity => "Hybrid Equity"
    case DebtShortTerm => "Debt Short Term"
    case DebtMediumTerm => "Debt Medium Term"
    case DebtLongTerm => "Debt Long Term"
    case LiquidFunds => "Liquid Funds"
    case IndexFunds => "Index Funds"
    case Elss => "ELSS"
  }

  datatype RiskLevel = Low | Moderate | High

  /** A star rating: an integer from 1 to 5. */
  type StarCount = n: int | 1 <= n <= 5 witness 1

  /** A rating is a star count or the sentinel 'NA'. */
  datatype Rating = Rated(stars: StarCount) | NotRated

  datatype Ratings = Ratings(crisil: Rating, valueResearch: Rating)

  datatype NavPoint = NavPoint(date: string, nav: real)

  /** Percentage returns; none is bounded, so negative returns are allowed. */
  datatype Returns = Returns(
    oneMonth: real, threeMonth: real, sixMonth: real,
    oneYear: real, threeYear: real, fiveYear: real,
    inception: real)

  /** Risk metrics; none is bounded. */
  datatype Volatility = Volatility(standardDeviation: real, beta: real, sharpeRatio: real, alpha: real)

  datatype AssetAllocation = AssetAllocation(equity: real, debt: real, cash: real, others: real)

  /** No sector name occurs twice. */
  predicate DistinctSectors(entries: seq<(string, real)>) {
    forall i, j :: 0 <= i < j < |entries| ==> entries[i].0 != entries[j].0
  }

  /**
    A sector allocation object, as its own entries in insertion order. Object keys
    are unique, hence the subset type.
   */
  type SectorAllocation = entries: seq<(string, real)> | DistinctSectors(entries) witness []

  /** The share stored under `sector`, or `None` when the object has no such key. */
  function SectorShare(alloc: seq<(string, real)>, sector: string): Option<real> {
    if |alloc| == 0 then None
    else if alloc[0].0 == sector then Some(alloc[0].1)
    else SectorShare(alloc[1..], sector)
  }

  datatype Fund = Fund(
    id: string,
    name: string,
    amc: string,
    category: Category,
    riskLevel: RiskLevel,
    nav: real,
    aum: real,
    expenseRatio: real,
    exitLoad: string,
    minInvestment: real,
    launchDate: string,
    performance: Returns,  // the `returns` field (a Dafny keyword)
    volatility: Volatility,
    assetAllocation: AssetAllocation,
    sectorAllocation: SectorAllocation,
    historicalData: seq<NavPoint>,
    ratings: Ratings)

  /** The catalog invariant: fund identifiers are unique. */
  predicate UniqueIds(catalog: seq<Fund>) {
    forall i, j :: 0 <= i < j < |catalog| ==> catalog[i].id != catalog[j].id
  }

  /**
    `funds.find(f => f.id === id)`: the first fund carrying `id`, or `None` when no
    fund does.
   */
  function FindById(funds: seq<Fund>, id: string): (r: Option<Fund>)
    ensures r.None? <==> forall i :: 0 <= i < |funds| ==> funds[i].id != id
    ensures r.Some? ==> exists i :: 0 <= i < |funds| && funds[i] == r.value && r.value.id == id
                                   && forall j :: 0 <= j < i ==> funds[j].id != id
  {
    if |funds| == 0 then None
    else if funds[0].id == id then Some(funds[0])
    else
      var r := FindById(funds[1..], id);
      if r.Some? then
        var i :| 0 <= i < |funds[1..]| && funds[1..][i] == r.value && r.value.id == id
                 && forall j :: 0 <= j < i ==> funds[1..][j].id != id;
        assert funds[i + 1] == r.value;
        r
      else r
  }

  /** In a catalog with unique identifiers, looking up a fund's own id finds that fund. */
  lemma FindOwnId(catalog: seq<Fund>, f: Fund)
    requires UniqueIds(catalog) && f in catalog
    ensures FindById(catalog, f.id) == Some(f)
  {
    var k :| 0 <= k < |catalog| && catalog[k] == f;
    var r := FindById(catalog, f.id);
    var i :| 0 <= i < |catalog| && catalog[i] == r.value && r.value.id == f.id
             && forall j :: 0 <= j < i ==> catalog[j].id != f.id;
    assert i == k;
  }

  /** Reading a key back from the entry list gives the value stored under it. */
  lemma {:induction false} SectorShareOfEntry(alloc: seq<(string, real)>, i: int)
    requires DistinctSectors(alloc) && 0 <= i < |alloc|
    ensures SectorShare(alloc, alloc[i].0) == Some(alloc[i].1)
  {
    if i > 0 {
      assert alloc[0].0 != alloc[i].0;
      SectorShareOfEntry(alloc[1..], i - 1);
    }
  }

  /** A key found in the object is the key of one of its entries. */
  lemma {:induction false} SectorShareHasEntry(alloc: seq<(string, real)>, sector: string)
    requires SectorShare(alloc, sector).Some?
    ensures exists i :: 0 <= i < |alloc| && alloc[i] == (sector, SectorShare(alloc, sector).value)
  {
    if alloc[0].0 != sector {
      SectorShareHasEntry(alloc[1..], sector);
      var i :| 0 <= i < |alloc[1..]| && alloc[1..][i] == (sector, SectorShare(alloc, sector).value);
      assert alloc[i + 1] == alloc[1..][i];
    } else {
      assert alloc[0] == (sector, SectorShare(alloc, sector).value);
    }
  }
}
