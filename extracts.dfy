/**
 The three extracts of the cleaned table (automotive-pricing-intelligence.py,
 lines 90-110). Each is a new table built by filtering and sorting the rows;
 none of them changes the table it reads.
 */
module Extracts {
  import opened Wrappers
  import opened Cells
  import opened Seqs
  import opened Sorting
  import opened Columns
  import opened Frames

  /** The top-revenue extract has at most this many rows (head(20)). */
  const TOP_COUNT: nat := 20

  /** The overpriced extract keeps rows priced more than this many percent above the competitor. */
  const OVERPRICED_PCT: real := 10.0

  /** The low-margin threshold is this quantile of Margin, the high-sales one this quantile of units. */
  const LOW_MARGIN_QUANTILE: real := 0.25
  const HIGH_SALES_QUANTILE: real := 0.75

  /**
   The sort key of the top-revenue extract: "Revenue" if it is a column,
   else "revenue", else "Revenue_calc" (find_col(...) or 'Revenue_calc',
   followed by the fallback when the name is not a column).
   */
  function RevenueKey(columns: seq<string>): (k: string)
    ensures "Revenue" in columns ==> k == "Revenue"
    ensures "Revenue" !in columns && "revenue" in columns ==> k == "revenue"
    ensures "Revenue" !in columns && "revenue" !in columns ==> k == REVENUE_CALC
  {
    assert REVENUE_ALIASES[0] == "Revenue" && REVENUE_ALIASES[1] == "revenue";
    var found := FirstPresent(REVENUE_ALIASES, columns).GetOr(REVENUE_CALC);
    if found in columns then found else REVENUE_CALC
  }

  /** The key is a column whenever Revenue_calc is one, as it is in every cleaned table. */
  lemma RevenueKeyIsColumn(columns: seq<string>)
    requires REVENUE_CALC in columns
    ensures RevenueKey(columns) in columns
  {
  }

  /** Line 93: the 20 rows with the largest revenue, largest first. */
  function TopRevenue(f: Frame): seq<Row>
    requires REVENUE_CALC in f.columns
  {
    RevenueKeyIsColumn(f.columns);
    Take(SortDesc(f.rows, IndexOf(f.columns, RevenueKey(f.columns))), TOP_COUNT)
  }

  /**
   The top-revenue extract has min(20, n) rows, all of them rows of the
   table, in non-increasing order of the key; no row left out has a larger
   key than a row kept.
   */
  lemma TopRevenueSpec(f: Frame)
    requires REVENUE_CALC in f.columns
    ensures RevenueKey(f.columns) in f.columns
    ensures var r, j := TopRevenue(f), IndexOf(f.columns, RevenueKey(f.columns));
      && |r| == (if |f.rows| < TOP_COUNT then |f.rows| else TOP_COUNT)
      && multiset(r) <= multiset(f.rows)
      && SortedDesc(r, j)
      && forall x, y :: x in multiset(f.rows) - multiset(r) && y in r ==> KeyLe(At(x, j), At(y, j))
  {
    RevenueKeyIsColumn(f.columns);
    var j := IndexOf(f.columns, RevenueKey(f.columns));
    var s := SortDesc(f.rows, j);
    var r := TopRevenue(f);
    assert r == s[..|r|];
    PrefixSorted(s, j, |r|);
    PrefixHoldsLargest(s, j, |r|);
  }

  /** A row of the overpriced extract: its Price_pct_diff is present and above 10. */
  predicate Overpriced(row: Row, pct: nat) {
    GreaterThan(At(row, pct), OVERPRICED_PCT)
  }

  /** Line 99: the rows more than 10% above the competitor price, largest difference first. */
  function OverpricedRows(f: Frame): seq<Row>
    requires PRICE_PCT_DIFF in f.columns
  {
    var j := IndexOf(f.columns, PRICE_PCT_DIFF);
    SortDesc(Filter(f.rows, row => Overpriced(row, j)), j)
  }

  /**
   The overpriced extract holds exactly the overpriced rows of the table,
   each as often as the table does, in non-increasing order of
   Price_pct_diff.
   */
  lemma OverpricedSpec(f: Frame)
    requires PRICE_PCT_DIFF in f.columns
    ensures var r, j := OverpricedRows(f), IndexOf(f.columns, PRICE_PCT_DIFF);
      && (forall x :: multiset(r)[x] == if Overpriced(x, j) then multiset(f.rows)[x] else 0)
      && (forall k :: 0 <= k < |r| ==> At(r[k], j).Num? && At(r[k], j).v > OVERPRICED_PCT)
      && multiset(r) <= multiset(f.rows)
      && SortedDesc(r, j)
  {
    var j := IndexOf(f.columns, PRICE_PCT_DIFF);
    var r := OverpricedRows(f);
    var p := row => Overpriced(row, j);
    forall x ensures multiset(r)[x] == if Overpriced(x, j) then multiset(f.rows)[x] else 0 {
      FilterMultiset(f.rows, p, x);
    }
    forall k | 0 <= k < |r| ensures Overpriced(r[k], j) {
      assert r[k] in multiset(r);
      FilterMultiset(f.rows, p, r[k]);
    }
    FilterSubMultiset(f.rows, p);
  }

  /** A row of the low-margin / high-sales extract. */
  predicate LowMarginHighSales(row: Row, margin: nat, units: nat, q25: Option<real>, q75: Option<real>) {
    AtMost(At(row, margin), q25) && AtLeast(At(row, units), q75)
  }

  /**
   Lines 108-110: the rows with Margin at most q25 and units at least q75,
   most units first. The thresholds are parameters; None stands for a NaN
   quantile, which no comparison passes.
   */
  function LowMarginHighSalesRows(f: Frame, units: string, q25: Option<real>, q75: Option<real>): seq<Row>
    requires MARGIN in f.columns && units in f.columns
  {
    var m, u := IndexOf(f.columns, MARGIN), IndexOf(f.columns, units);
    SortDesc(Filter(f.rows, row => LowMarginHighSales(row, m, u, q25, q75)), u)
  }

  /**
   The low-margin / high-sales extract holds exactly the rows meeting both
   thresholds, each as often as the table does, in non-increasing order of
   units.
   */
  lemma LowMarginHighSalesSpec(f: Frame, units: string, q25: Option<real>, q75: Option<real>)
    requires MARGIN in f.columns && units in f.columns
    ensures var r := LowMarginHighSalesRows(f, units, q25, q75);
      var m, u := IndexOf(f.columns, MARGIN), IndexOf(f.columns, units);
      && (forall x :: multiset(r)[x] == if LowMarginHighSales(x, m, u, q25, q75) then multiset(f.rows)[x] else 0)
      && (forall k :: 0 <= k < |r| ==> LowMarginHighSales(r[k], m, u, q25, q75))
      && multiset(r) <= multiset(f.rows)
      && SortedDesc(r, u)
  {
    var m, u := IndexOf(f.columns, MARGIN), IndexOf(f.columns, units);
    var r := LowMarginHighSalesRows(f, units, q25, q75);
    var p := row => LowMarginHighSales(row, m, u, q25, q75);
    forall x ensures multiset(r)[x] == if LowMarginHighSales(x, m, u, q25, q75) then multiset(f.rows)[x] else 0 {
      FilterMultiset(f.rows, p, x);
    }
    forall k | 0 <= k < |r| ensures LowMarginHighSales(r[k], m, u, q25, q75) {
      assert r[k] in multiset(r);
      FilterMultiset(f.rows, p, r[k]);
    }
    FilterSubMultiset(f.rows, p);
  }
}
