/**
 The whole run of the pricing script (automotive-pricing-intelligence.py,
 lines 26-114) without its files, prints and charts: the cleaned table and
 the three extracts written next to it. The overpriced extract exists only
 with a competitor price column, the low-margin / high-sales one only with
 cost and units columns.

 pd.to_numeric's parsing (`parse`), the string pandas prints for a number
 (`render`) and Series.quantile (`quantile`, None standing for NaN) are
 parameters.
 */
module Pipeline {
  import opened Wrappers
  import opened Cells
  import opened Seqs
  import opened Sorting
  import opened Columns
  import opened Frames
  import opened Cleaning
  import opened Extracts

  /** The tables the run writes: the cleaned one and the three extracts. */
  datatype Report = Report(
    cleaned: Cleaned,
    topRevenue: seq<Row>,
    overpriced: Option<seq<Row>>,
    lowMarginHighSales: Option<seq<Row>>)

  /** The extracts of a cleaned table (lines 90-110). */
  function Extract(c: Cleaned, quantile: (seq<Cell>, real) -> Option<real>): (r: Report)
    requires HasDerived(c.frame) && Resolved(c.roles.units, c.frame.columns)
  {
    var g, roles := c.frame, c.roles;
    var over := if roles.competitorPrice.Some? then Some(OverpricedRows(g)) else None;
    var low :=
      if roles.cost.Some? && roles.units.Some? then
        var q25 := quantile(Column(g, MARGIN), LOW_MARGIN_QUANTILE);
        var q75 := quantile(Column(g, roles.units.value), HIGH_SALES_QUANTILE);
        Some(LowMarginHighSalesRows(g, roles.units.value, q25, q75))
      else None;
    Report(c, TopRevenue(g), over, low)
  }

  /** The run: the cleaning stage, then the extracts of the cleaned table. */
  function Analyse(input: Frame, parse: string -> Option<real>, render: real -> string,
                   quantile: (seq<Cell>, real) -> Option<real>): (r: Result<Report, Error>)
    requires WellFormed(input)
    ensures r.Err? <==> Clean(input, parse, render).Err?
    ensures r.Ok? ==> r.value.cleaned == Clean(input, parse, render).value
  {
    match Clean(input, parse, render)
    case Err(e) => Err(e)
    case Ok(c) => Ok(Extract(c, quantile))
  }

  /**
   The run stops with an error exactly when no price alias or no part
   alias names a column; otherwise it reports a well-formed cleaned table
   holding both key columns.
   */
  lemma AnalyseFails(input: Frame, parse: string -> Option<real>, render: real -> string,
                     quantile: (seq<Cell>, real) -> Option<real>)
    requires WellFormed(input)
    ensures var r := Analyse(input, parse, render, quantile);
      && (r.Err? <==>
            (forall i :: 0 <= i < |PRICE_ALIASES| ==> PRICE_ALIASES[i] !in input.columns) ||
            (forall i :: 0 <= i < |PART_ALIASES| ==> PART_ALIASES[i] !in input.columns))
      && (r.Ok? ==>
            var g, roles := r.value.cleaned.frame, r.value.cleaned.roles;
            && WellFormed(g) && roles.price.Some? && roles.part.Some?
            && roles.price.value in input.columns && roles.part.value in input.columns
            && roles.price.value in g.columns && roles.part.value in g.columns)
  {
    var r := Analyse(input, parse, render, quantile);
    if r.Ok? {
      CleanKeys(input, parse, render);
    }
  }

  /**
   The overpriced extract exists exactly when a competitor price alias
   names a column, the low-margin / high-sales extract exactly when a cost
   alias and a units alias do.
   */
  lemma AnalyseOptionalExtracts(input: Frame, parse: string -> Option<real>, render: real -> string,
                                quantile: (seq<Cell>, real) -> Option<real>)
    requires WellFormed(input) && Analyse(input, parse, render, quantile).Ok?
    ensures var r := Analyse(input, parse, render, quantile).value;
      && (r.overpriced.Some? <==>
            exists i :: 0 <= i < |COMPETITOR_PRICE_ALIASES| && COMPETITOR_PRICE_ALIASES[i] in input.columns)
      && (r.lowMarginHighSales.Some? <==>
            (exists i :: 0 <= i < |COST_ALIASES| && COST_ALIASES[i] in input.columns) &&
            (exists i :: 0 <= i < |UNITS_ALIASES| && UNITS_ALIASES[i] in input.columns))
  {
    var c := Clean(input, parse, render).value;
    var roles := Resolve(input.columns);
    assert c.roles == roles;
    var r := Extract(c, quantile);
    assert r.overpriced.Some? <==> roles.competitorPrice.Some?;
    assert r.lowMarginHighSales.Some? <==> roles.cost.Some? && roles.units.Some?;
    assert roles.competitorPrice == FirstPresent(COMPETITOR_PRICE_ALIASES, input.columns);
    assert roles.cost == FirstPresent(COST_ALIASES, input.columns);
    assert roles.units == FirstPresent(UNITS_ALIASES, input.columns);
  }

  /**
   Every extract is drawn from the cleaned table: its rows are rows of the
   cleaned table, each at most as often, and the top-revenue one has
   min(20, n) of them.
   */
  lemma ExtractsFromCleaned(c: Cleaned, quantile: (seq<Cell>, real) -> Option<real>)
    requires HasDerived(c.frame) && Resolved(c.roles.units, c.frame.columns)
    ensures var r, rows := Extract(c, quantile), c.frame.rows;
      && r.cleaned == c
      && multiset(r.topRevenue) <= multiset(rows)
      && |r.topRevenue| == (if |rows| < TOP_COUNT then |rows| else TOP_COUNT)
      && (r.overpriced.Some? ==> multiset(r.overpriced.value) <= multiset(rows))
      && (r.lowMarginHighSales.Some? ==> multiset(r.lowMarginHighSales.value) <= multiset(rows))
  {
    var r := Extract(c, quantile);
    var g, roles := c.frame, c.roles;
    TopRevenueSpec(g);
    if r.overpriced.Some? {
      OverpricedSpec(g);
    }
    if r.lowMarginHighSales.Some? {
      var q25 := quantile(Column(g, MARGIN), LOW_MARGIN_QUANTILE);
      var q75 := quantile(Column(g, roles.units.value), HIGH_SALES_QUANTILE);
      LowMarginHighSalesSpec(g, roles.units.value, q25, q75);
    }
  }

  /**
   The low-margin / high-sales extract holds exactly the rows of the
   cleaned table whose Margin is at most the 25% quantile of the whole
   Margin column and whose units are at least the 75% quantile of the whole
   units column.
   */
  lemma LowMarginThresholds(c: Cleaned, quantile: (seq<Cell>, real) -> Option<real>)
    requires HasDerived(c.frame) && Resolved(c.roles.units, c.frame.columns)
    requires Extract(c, quantile).lowMarginHighSales.Some?
    ensures var r, g, roles := Extract(c, quantile), c.frame, c.roles;
      && roles.cost.Some? && roles.units.Some?
      && var q25 := quantile(Column(g, MARGIN), LOW_MARGIN_QUANTILE);
      && var q75 := quantile(Column(g, roles.units.value), HIGH_SALES_QUANTILE);
      && var m, u := IndexOf(g.columns, MARGIN), IndexOf(g.columns, roles.units.value);
      && forall x :: x in r.lowMarginHighSales.value <==> x in g.rows && LowMarginHighSales(x, m, u, q25, q75)
  {
    var r, g, roles := Extract(c, quantile), c.frame, c.roles;
    var q25 := quantile(Column(g, MARGIN), LOW_MARGIN_QUANTILE);
    var q75 := quantile(Column(g, roles.units.value), HIGH_SALES_QUANTILE);
    LowMarginHighSalesSpec(g, roles.units.value, q25, q75);
    var m, u := IndexOf(g.columns, MARGIN), IndexOf(g.columns, roles.units.value);
    forall x ensures x in r.lowMarginHighSales.value <==> x in g.rows && LowMarginHighSales(x, m, u, q25, q75) {
      assert x in r.lowMarginHighSales.value <==> x in multiset(r.lowMarginHighSales.value);
      assert x in g.rows <==> x in multiset(g.rows);
    }
  }

  /**
   The overpriced extract holds exactly the rows of the cleaned table whose
   Price_pct_diff is present and above 10.
   */
  lemma OverpricedFromCleaned(c: Cleaned, quantile: (seq<Cell>, real) -> Option<real>)
    requires HasDerived(c.frame) && Resolved(c.roles.units, c.frame.columns)
    requires Extract(c, quantile).overpriced.Some?
    ensures var r, g := Extract(c, quantile), c.frame;
      && c.roles.competitorPrice.Some?
      && forall x :: x in r.overpriced.value <==> x in g.rows && Overpriced(x, IndexOf(g.columns, PRICE_PCT_DIFF))
  {
    var r, g := Extract(c, quantile), c.frame;
    OverpricedSpec(g);
    forall x ensures x in r.overpriced.value <==> x in g.rows && Overpriced(x, IndexOf(g.columns, PRICE_PCT_DIFF)) {
      assert x in r.overpriced.value <==> x in multiset(r.overpriced.value);
      assert x in g.rows <==> x in multiset(g.rows);
    }
  }

  /**
   The run as the script performs it: the cleaning stage on the mutable
   table, find_col for the revenue column, then the extracts.
   */
  method Run(input: Frame, parse: string -> Option<real>, render: real -> string,
             quantile: (seq<Cell>, real) -> Option<real>)
    returns (r: Result<Report, Error>)
    requires WellFormed(input)
    ensures r == Analyse(input, parse, render, quantile)
  {
    var cleaned := CleanTable(input, parse, render);
    if cleaned.Err? {
      return Err(cleaned.error);
    }
    var c := cleaned.value;
    var g, roles := c.frame, c.roles;
    var found := FindCol(REVENUE_ALIASES, g.columns);
    var revCol := found.GetOr(REVENUE_CALC);
    if revCol !in g.columns {
      revCol := REVENUE_CALC;
    }
    assert revCol == RevenueKey(g.columns);
    var top := Take(SortDesc(g.rows, IndexOf(g.columns, revCol)), TOP_COUNT);
    var over: Option<seq<Row>> := None;
    if roles.competitorPrice.Some? {
      over := Some(OverpricedRows(g));
    }
    var low: Option<seq<Row>> := None;
    if roles.cost.Some? && roles.units.Some? {
      var q25 := quantile(Column(g, MARGIN), LOW_MARGIN_QUANTILE);
      var q75 := quantile(Column(g, roles.units.value), HIGH_SALES_QUANTILE);
      low := Some(LowMarginHighSalesRows(g, roles.units.value, q25, q75));
    }
    return Ok(Report(c, top, over, low));
  }
}
