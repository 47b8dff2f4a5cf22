/**
 The cleaning stage of the pricing pipeline (automotive-pricing-intelligence.py,
 lines 26-80): strip the text columns, resolve the column roles, coerce the
 numeric roles, drop exact duplicates, stop when price or part is missing,
 drop rows without a price or part, and add the derived metric columns.

 `Clean` states the stage as one function of the input table; the class
 `DataFrame` performs it step by step on a mutable table, as the script
 does, and `CleanTable` drives it and is proved to compute `Clean`.
 */
module Cleaning {
  import opened Wrappers
  import opened Cells
  import opened Seqs
  import opened Columns
  import opened Frames

  /** The run stops (sys.exit(1)) when the price or the part column is missing. */
  datatype Error = MissingRequiredColumns

  /** The cleaned table, the column map it was built with, and how many duplicate rows went. */
  datatype Cleaned = Cleaned(frame: Frame, roles: Roles, duplicates: nat)

  /** Text stripped, roles coerced and duplicates dropped: the table the fatal check looks at. */
  function Prepared(f: Frame, roles: Roles, parse: string -> Option<real>, render: real -> string): Frame {
    DropDuplicates(Coerce(StripText(f, render), roles, parse))
  }

  /**
   The prepared table without the rows missing a price or a part: the
   table the derived columns are added to.
   */
  function Keyed(f: Frame, roles: Roles, parse: string -> Option<real>, render: real -> string): (k: Frame)
    requires WellFormed(f) && roles == Resolve(f.columns) && roles.HasRequired()
    ensures WellFormed(k) && k.columns == f.columns && PlainRoles(k, roles)
    ensures roles.part.value in k.columns && Plain(roles.part)
  {
    var p := Prepared(f, roles, parse, render);
    PreparedEffect(f, roles, parse, render);
    SelectionShape(p, roles.price.value, roles.part.value);
    DropMissingKeys(p, roles.price.value, roles.part.value)
  }

  /** The cleaning stage once price and part have resolved: the keyed table with its derived columns. */
  function CleanResolved(f: Frame, roles: Roles, parse: string -> Option<real>, render: real -> string): (c: Cleaned)
    requires WellFormed(f) && roles == Resolve(f.columns) && roles.HasRequired()
    ensures c.roles == roles && WellFormed(c.frame) && HasDerived(c.frame)
    ensures forall name :: name in f.columns ==> name in c.frame.columns
  {
    var k := Keyed(f, roles, parse, render);
    DerivedHeaderHas(k.columns);
    Cleaned(Derive(k, roles), roles, |f.rows| - |Prepared(f, roles, parse, render).rows|)
  }

  /** The whole cleaning stage. */
  function Clean(f: Frame, parse: string -> Option<real>, render: real -> string): (r: Result<Cleaned, Error>)
    requires WellFormed(f)
    ensures r.Err? <==>
              (forall i :: 0 <= i < |PRICE_ALIASES| ==> PRICE_ALIASES[i] !in f.columns) ||
              (forall i :: 0 <= i < |PART_ALIASES| ==> PART_ALIASES[i] !in f.columns)
    ensures r.Ok? ==> r.value.roles == Resolve(f.columns) && WellFormed(r.value.frame)
    ensures r.Ok? ==> r.value.roles.HasRequired() && HasDerived(r.value.frame)
    ensures r.Ok? ==> forall c :: c in f.columns ==> c in r.value.frame.columns
  {
    var roles := Resolve(f.columns);
    if !roles.HasRequired() then Err(MissingRequiredColumns)
    else Ok(CleanResolved(f, roles, parse, render))
  }

  // ---------------------------------------------------------------------
  // Properties of the single steps
  // ---------------------------------------------------------------------

  /**
   drop_duplicates keeps one copy of every row, the first, in input order:
   the kept rows are distinct, each input row equals a kept one, and doing
   it again changes nothing.
   */
  lemma DropDuplicatesEffect(f: Frame)
    requires WellFormed(f)
    ensures var g := DropDuplicates(f);
      && WellFormed(g) && g.columns == f.columns
      && NoDup(g.rows) && |g.rows| <= |f.rows|
      && PicksAt(g.rows, f.rows, FirstIndices(f.rows))
      && (forall i :: 0 <= i < |f.rows| ==> f.rows[i] in g.rows)
      && DropDuplicates(g) == g
  {
    DedupPicksFirst(f.rows);
    DedupIdempotent(f.rows);
  }

  /**
   dropna(subset=[price, part]) keeps exactly the rows whose price and part
   cells are both present, in their order.
   */
  lemma DropMissingKeysEffect(f: Frame, price: string, part: string)
    requires WellFormed(f) && price in f.columns && part in f.columns
    ensures var g := DropMissingKeys(f, price, part);
      var pi, pa := IndexOf(f.columns, price), IndexOf(f.columns, part);
      && WellFormed(g) && g.columns == f.columns
      && (forall i :: 0 <= i < |g.rows| ==> !Column(g, price)[i].Missing? && !Column(g, part)[i].Missing?)
      && (forall i :: 0 <= i < |f.rows| && KeysPresent(f.rows[i], pi, pa) ==> f.rows[i] in g.rows)
      && PicksAt(g.rows, f.rows, FilterIndices(f.rows, row => KeysPresent(row, pi, pa)))
  {
    var pi, pa := IndexOf(f.columns, price), IndexOf(f.columns, part);
    FilterPicks(f.rows, row => KeysPresent(row, pi, pa));
  }

  /** Both selections keep the header and take their rows from the input. */
  lemma SelectionShape(f: Frame, price: string, part: string)
    requires WellFormed(f)
    ensures var g := DropDuplicates(f);
      && WellFormed(g) && g.columns == f.columns && |g.rows| <= |f.rows|
      && forall k :: 0 <= k < |g.rows| ==> g.rows[k] in f.rows
    ensures price in f.columns && part in f.columns ==>
      var g := DropMissingKeys(f, price, part);
      && WellFormed(g) && g.columns == f.columns && |g.rows| <= |f.rows|
      && (forall k :: 0 <= k < |g.rows| ==> g.rows[k] in f.rows)
      && (forall i :: 0 <= i < |g.rows| ==> !Column(g, price)[i].Missing? && !Column(g, part)[i].Missing?)
  {
  }

  /** The table before the fatal check is well formed and the roles are plain columns of it. */
  lemma PreparedEffect(f: Frame, roles: Roles, parse: string -> Option<real>, render: real -> string)
    requires WellFormed(f) && roles == Resolve(f.columns) && roles.HasRequired()
    ensures var p := Prepared(f, roles, parse, render);
      && WellFormed(p) && p.columns == f.columns && |p.rows| <= |f.rows|
      && Resolved(roles.part, p.columns) && Plain(roles.part) && PlainRoles(p, roles)
  {
    var s := StripText(f, render);
    StripTextShape(f, render);
    CoerceShape(s, roles, parse);
    SelectionShape(Coerce(s, roles, parse), "", "");
    ResolvedRolesDistinct(f.columns);
  }

  /** After coercion every price cell is a number or missing. */
  lemma PreparedPriceIsNumber(f: Frame, roles: Roles, parse: string -> Option<real>, render: real -> string)
    requires WellFormed(f) && roles == Resolve(f.columns) && roles.price.Some?
    ensures var p := Prepared(f, roles, parse, render);
      roles.price.value in p.columns &&
      forall i :: 0 <= i < |p.rows| ==> !Column(p, roles.price.value)[i].Text?
  {
    var s := StripText(f, render);
    var c := Coerce(s, roles, parse);
    StripTextShape(f, render);
    ResolvedRolesDistinct(f.columns);
    CoercedRoles(roles);
    CoercedColumnNoText(s, roles, parse, roles.price.value);
    SelectionShape(c, "", "");
    NoTextInSubRows(c, DropDuplicates(c), roles.price.value);
  }

  // ---------------------------------------------------------------------
  // Properties of the whole cleaning stage
  // ---------------------------------------------------------------------

  /**
   A cleaned table has both key columns, every price is a number and no
   part is missing.
   */
  lemma CleanKeys(f: Frame, parse: string -> Option<real>, render: real -> string)
    requires WellFormed(f) && Clean(f, parse, render).Ok?
    ensures var c := Clean(f, parse, render).value;
      && c.roles.HasRequired() && c.roles.price.value in c.frame.columns && c.roles.part.value in c.frame.columns
      && forall i :: 0 <= i < |c.frame.rows| ==>
           Column(c.frame, c.roles.price.value)[i].Num? && !Column(c.frame, c.roles.part.value)[i].Missing?
  {
    var roles := Resolve(f.columns);
    var p := Prepared(f, roles, parse, render);
    PreparedEffect(f, roles, parse, render);
    PreparedPriceIsNumber(f, roles, parse, render);
    var pr, pa := roles.price.value, roles.part.value;
    var k := Keyed(f, roles, parse, render);
    SelectionShape(p, pr, pa);
    NoTextInSubRows(p, k, pr);
    StagesKeepColumn(k, roles, pr);
    StagesKeepColumn(k, roles, pa);
  }

  /**
   The derived columns of a cleaned table, stated in the table's own
   columns (Frames.MetricsHold).
   */
  lemma CleanMetrics(f: Frame, parse: string -> Option<real>, render: real -> string)
    requires WellFormed(f) && Clean(f, parse, render).Ok?
    ensures MetricsHold(Clean(f, parse, render).value.frame, Clean(f, parse, render).value.roles)
  {
    var roles := Resolve(f.columns);
    DeriveMetrics(Keyed(f, roles, parse, render), roles);
  }

  /**
   When no input column carries a derived name, the cleaned table has no
   two equal rows. (A column named, say, "Margin" is overwritten by the
   derivation, which can turn distinct rows into equal ones; see
   Frames.DeriveRowwise.)
   */
  lemma CleanNoDup(f: Frame, parse: string -> Option<real>, render: real -> string)
    requires WellFormed(f) && Clean(f, parse, render).Ok?
    requires forall c :: c in f.columns ==> NotDerived(c)
    ensures NoDup(Clean(f, parse, render).value.frame.rows)
  {
    var roles := Resolve(f.columns);
    var p := Prepared(f, roles, parse, render);
    PreparedEffect(f, roles, parse, render);
    var pi, pa := IndexOf(p.columns, roles.price.value), IndexOf(p.columns, roles.part.value);
    FilterNoDup(p.rows, row => KeysPresent(row, pi, pa));
    DeriveNoDup(Keyed(f, roles, parse, render), roles);
  }

  /** The table at the fatal check is unmixed, whatever the roles. */
  lemma PreparedUnmixed(f: Frame, roles: Roles, parse: string -> Option<real>, render: real -> string)
    requires WellFormed(f)
    ensures Unmixed(Prepared(f, roles, parse, render))
  {
    var s := StripText(f, render);
    StripTextShape(f, render);
    StripTextUnmixed(f, render);
    var c := Coerce(s, roles, parse);
    CoerceShape(s, roles, parse);
    CoerceKeepsUnmixed(s, roles, parse);
    SelectionShape(c, "", "");
    SubRowsKeepUnmixed(c, DropDuplicates(c));
  }

  /**
   No column of a cleaned table holds both a number and text: the strip
   turns every cell of a text column into text, NaN included, and no later
   step brings text into a column without it. The sort keys of the
   extracts therefore never compare a number with text.
   */
  lemma CleanUnmixed(f: Frame, parse: string -> Option<real>, render: real -> string)
    requires WellFormed(f) && Clean(f, parse, render).Ok?
    ensures var g := Clean(f, parse, render).value.frame;
      && Unmixed(g)
      && forall c, i, k :: c in g.columns && 0 <= i < |g.rows| && 0 <= k < |g.rows| ==>
           !(Column(g, c)[i].Num? && Column(g, c)[k].Text?)
  {
    var roles := Resolve(f.columns);
    var k := Keyed(f, roles, parse, render);
    KeyedUnmixed(f, roles, parse, render);
    DeriveKeepsUnmixed(k, roles);
    UnmixedNoNumberBesideText(Derive(k, roles));
  }

  /** Dropping the rows without a price or part keeps the table unmixed. */
  lemma KeyedUnmixed(f: Frame, roles: Roles, parse: string -> Option<real>, render: real -> string)
    requires WellFormed(f) && roles == Resolve(f.columns) && roles.HasRequired()
    ensures Unmixed(Keyed(f, roles, parse, render))
  {
    var p := Prepared(f, roles, parse, render);
    PreparedEffect(f, roles, parse, render);
    PreparedUnmixed(f, roles, parse, render);
    SelectionShape(p, roles.price.value, roles.part.value);
    SubRowsKeepUnmixed(p, Keyed(f, roles, parse, render));
  }

  /** The cleaned table never has more rows than the input, and the duplicate count is what went at drop_duplicates. */
  lemma CleanRowCount(f: Frame, parse: string -> Option<real>, render: real -> string)
    requires WellFormed(f) && Clean(f, parse, render).Ok?
    ensures var c := Clean(f, parse, render).value;
      var p := Prepared(f, c.roles, parse, render);
      && |c.frame.rows| <= |p.rows| <= |f.rows|
      && c.duplicates == |f.rows| - |p.rows|
  {
    var roles := Resolve(f.columns);
    var p := Prepared(f, roles, parse, render);
    PreparedEffect(f, roles, parse, render);
    SelectionShape(p, roles.price.value, roles.part.value);
  }

  // ---------------------------------------------------------------------
  // The table as the script mutates it
  // ---------------------------------------------------------------------

  /** The pandas DataFrame df: a header and rows, replaced column by column. */
  class DataFrame {
    var columns: seq<string>
    var rows: seq<Row>

    function Value(): Frame
      reads this
    {
      Frame(columns, rows)
    }

    ghost predicate Valid()
      reads this
    {
      WellFormed(Value())
    }

    constructor (f: Frame)
      requires WellFormed(f)
      ensures Valid() && Value() == f
    {
      columns := f.columns;
      rows := f.rows;
    }

    /** Lines 27-31: each text column, chosen up front, converted to strings and stripped. */
    method StripText(render: real -> string)
      requires Valid()
      modifies this
      ensures Valid() && Value() == Frames.StripText(old(Value()), render)
    {
      ghost var f := Value();
      var textCols := TextColumnList(Value());
      StripColumnsNone(f, render);
      for k := 0 to |textCols|
        invariant columns == f.columns
        invariant rows == StripColumns(f, textCols[..k], render).rows
      {
        StripColumnsStep(f, textCols[..k], textCols[k], render);
        StripColumn(textCols[k], render);
        assert textCols[..k + 1] == textCols[..k] + [textCols[k]];
      }
      assert textCols[..|textCols|] == textCols;
      StripTextShape(f, render);
    }

    /** Line 29: df[c] = df[c].astype(str).str.strip() for the column at position j. */
    method StripColumn(j: nat, render: real -> string)
      modifies this
      ensures columns == old(columns) && rows == MapColumn(old(rows), j, c => StripCell(c, render))
    {
      rows := MapColumn(rows, j, c => StripCell(c, render));
    }

    /** Lines 52-55: each numeric role that names a column (`if col:`) coerced in turn. */
    method Coerce(roles: Roles, parse: string -> Option<real>)
      requires Valid()
      requires Resolved(roles.price, columns) && Resolved(roles.competitorPrice, columns)
      requires Resolved(roles.cost, columns) && Resolved(roles.units, columns)
      modifies this
      ensures Valid() && Value() == Frames.Coerce(old(Value()), roles, parse)
    {
      ghost var f := Value();
      var keys := roles.NumericRoles();
      CoerceColumnsNone(f, parse);
      assert CoercedNames(roles, 0) == {};
      for k := 0 to 4
        invariant columns == f.columns
        invariant rows == CoerceColumns(f, CoercedNames(roles, k), parse).rows
      {
        var col := keys[k];
        CoercedNamesStep(roles, k);
        if col.Some? && col.value != "" {
          CoerceColumnsStep(f, CoercedNames(roles, k), col.value, parse);
          rows := MapColumn(rows, IndexOf(columns, col.value), c => CoerceCell(c, parse));
        }
      }
      CoerceEffect(f, roles, parse);
    }

    /** Line 59: exact duplicates dropped; returns how many went (before - after). */
    method DropDuplicates() returns (removed: nat)
      requires Valid()
      modifies this
      ensures Valid() && Value() == Frames.DropDuplicates(old(Value()))
      ensures removed == |old(rows)| - |rows|
    {
      DropDuplicatesEffect(Value());
      var before := |rows|;
      rows := Dedup(rows);
      removed := before - |rows|;
    }

    /** Line 68: rows without a price or a part dropped. */
    method DropMissingKeys(price: string, part: string)
      requires Valid() && price in columns && part in columns
      modifies this
      ensures Valid() && Value() == Frames.DropMissingKeys(old(Value()), price, part)
    {
      DropMissingKeysEffect(Value(), price, part);
      var pi, pa := IndexOf(columns, price), IndexOf(columns, part);
      rows := Filter(rows, row => KeysPresent(row, pi, pa));
    }

    /** df[name] = values: replaces the column of that name, or appends it. */
    method SetColumn(name: string, values: seq<Cell>)
      requires Valid() && |values| == |rows|
      modifies this
      ensures Valid() && Value() == Frames.SetColumn(old(Value()), name, values)
    {
      var g := Frames.SetColumn(Value(), name, values);
      columns := g.columns;
      rows := g.rows;
    }

    /** Lines 77-80: the four derived columns, each computed from the table as it stands. */
    method AddDerived(roles: Roles)
      requires Valid() && DerivableRoles(Value(), roles)
      modifies this
      ensures Valid() && Value() == Derive(old(Value()), roles)
    {
      ghost var f := Value();
      SetColumn(PRICE_DIFF, PriceDiffValues(Value(), roles));
      assert Value() == Stage1(f, roles);
      SetColumn(PRICE_PCT_DIFF, PricePctDiffValues(Value(), roles));
      assert Value() == Stage2(f, roles);
      SetColumn(MARGIN, MarginValues(Value(), roles));
      assert Value() == Stage3(f, roles);
      SetColumn(REVENUE_CALC, RevenueCalcValues(Value(), roles));
    }
  }

  /** Helper of DataFrame.StripText: before the loop's first turn nothing is stripped. */
  lemma StripColumnsNone(f: Frame, render: real -> string)
    ensures StripColumns(f, [], render).rows == f.rows
  {
    var g := StripColumns(f, [], render);
    forall i | 0 <= i < |f.rows| ensures g.rows[i] == f.rows[i] { }
  }

  /** Helper of DataFrame.Coerce: before the loop's first turn nothing is coerced. */
  lemma CoerceColumnsNone(f: Frame, parse: string -> Option<real>)
    ensures CoerceColumns(f, {}, parse).rows == f.rows
  {
    var g := CoerceColumns(f, {}, parse);
    forall i | 0 <= i < |f.rows| ensures g.rows[i] == f.rows[i] { }
  }

  /**
   Lines 26-61 on the mutable table: strip the text columns, fill the
   column map with find_col, coerce the numeric roles and drop duplicates.
   */
  method PrepareTable(df: DataFrame, input: Frame, parse: string -> Option<real>, render: real -> string)
    returns (roles: Roles, removed: nat)
    requires df.Valid() && df.Value() == input
    modifies df
    ensures roles == Resolve(input.columns)
    ensures df.Valid() && df.Value() == Prepared(input, roles, parse, render)
    ensures removed == |input.rows| - |Prepared(input, roles, parse, render).rows|
  {
    df.StripText(render);
    StripTextShape(input, render);
    var price := FindCol(PRICE_ALIASES, df.columns);
    var competitorPrice := FindCol(COMPETITOR_PRICE_ALIASES, df.columns);
    var cost := FindCol(COST_ALIASES, df.columns);
    var units := FindCol(UNITS_ALIASES, df.columns);
    var part := FindCol(PART_ALIASES, df.columns);
    roles := Roles(price, competitorPrice, cost, units, part);
    assert roles == Resolve(input.columns);
    df.Coerce(roles, parse);
    CoerceShape(StripText(input, render), roles, parse);
    removed := df.DropDuplicates();
  }

  /**
   The cleaning stage as the script runs it: the steps in place on the
   table, the fatal check, the missing-key filter and the derived columns.
   */
  method CleanTable(input: Frame, parse: string -> Option<real>, render: real -> string)
    returns (r: Result<Cleaned, Error>)
    requires WellFormed(input)
    ensures r == Clean(input, parse, render)
  {
    var df := new DataFrame(input);
    var roles, removed := PrepareTable(df, input, parse, render);
    if !roles.HasRequired() {
      return Err(MissingRequiredColumns);
    }
    ghost var p := Prepared(input, roles, parse, render);
    PreparedEffect(input, roles, parse, render);
    df.DropMissingKeys(roles.price.value, roles.part.value);
    ghost var k := Keyed(input, roles, parse, render);
    assert df.Value() == k;
    df.AddDerived(roles);
    assert CleanResolved(input, roles, parse, render) == Cleaned(df.Value(), roles, removed);
    return Ok(Cleaned(df.Value(), roles, removed));
  }
}
