/**
 The table and the stages of the cleaning pipeline as functions from table
 to table: stripping text columns, numeric coercion of the role columns,
 duplicate removal, removal of rows missing a key field, and the derived
 metric columns.
 */
module Frames {
  import opened Wrappers
  import opened Cells
  import opened Seqs
  import opened Columns

  /** A table: column names (the header row) and rows of cells. */
  datatype Frame = Frame(columns: seq<string>, rows: seq<Row>)

  /** Column names are distinct (pandas' reader renames repeats) and every row has one cell per column. */
  ghost predicate WellFormed(f: Frame) {
    (forall a, b :: 0 <= a < b < |f.columns| ==> f.columns[a] != f.columns[b]) &&
    forall i :: 0 <= i < |f.rows| ==> |f.rows[i]| == |f.columns|
  }

  /** The position of a column name: the first one that matches. */
  function IndexOf(columns: seq<string>, name: string): (j: nat)
    requires name in columns
    ensures j < |columns| && columns[j] == name
    ensures forall k :: 0 <= k < j ==> columns[k] != name
  {
    if columns[0] == name then 0 else 1 + IndexOf(columns[1..], name)
  }

  /** The cells of a named column, row by row (df[name]). */
  function Column(f: Frame, name: string): (c: seq<Cell>)
    requires name in f.columns
    ensures |c| == |f.rows|
    ensures forall i :: 0 <= i < |f.rows| ==> c[i] == At(f.rows[i], IndexOf(f.columns, name))
  {
    seq(|f.rows|, i requires 0 <= i < |f.rows| => At(f.rows[i], IndexOf(f.columns, name)))
  }

  /** Applies g to column j of every row. */
  function MapColumn(rows: seq<Row>, j: nat, g: Cell -> Cell): (r: seq<Row>)
    ensures |r| == |rows|
  {
    seq(|rows|, i requires 0 <= i < |rows| =>
      if j < |rows[i]| then rows[i][j := g(rows[i][j])] else rows[i])
  }

  /** MapColumn changes the cells at position j and no others. */
  lemma MapColumnCells(rows: seq<Row>, j: nat, g: Cell -> Cell)
    ensures var r := MapColumn(rows, j, g);
      && (forall i :: 0 <= i < |rows| ==> |r[i]| == |rows[i]|)
      && forall i, k :: 0 <= i < |rows| && 0 <= k < |rows[i]| ==>
           r[i][k] == if k == j then g(rows[i][k]) else rows[i][k]
  {
  }

  // ---------------------------------------------------------------------
  // Stripping text columns (select_dtypes(include=['object']), astype(str).str.strip())
  // ---------------------------------------------------------------------

  /** pandas gives a column the object dtype when it holds any text. */
  predicate IsTextColumn(rows: seq<Row>, j: nat) {
    exists i :: 0 <= i < |rows| && At(rows[i], j).Text?
  }

  /** The positions of the text columns from position j on, in column order. */
  function TextColumnsFrom(f: Frame, j: nat): seq<nat>
    decreases |f.columns| - j
  {
    if j >= |f.columns| then []
    else (if IsTextColumn(f.rows, j) then [j] else []) + TextColumnsFrom(f, j + 1)
  }

  /** The positions of the text columns, in column order (select_dtypes(include=['object'])). */
  function TextColumnList(f: Frame): seq<nat> {
    TextColumnsFrom(f, 0)
  }

  lemma {:induction false} TextColumnsFromMembers(f: Frame, j: nat)
    decreases |f.columns| - j
    ensures forall m: nat :: m in TextColumnsFrom(f, j) <==> j <= m < |f.columns| && IsTextColumn(f.rows, m)
  {
    if j < |f.columns| {
      TextColumnsFromMembers(f, j + 1);
    }
  }

  /** The list holds exactly the positions of the text columns. */
  lemma TextColumnListMembers(f: Frame)
    ensures forall j: nat :: j in TextColumnList(f) <==> j < |f.columns| && IsTextColumn(f.rows, j)
  {
    TextColumnsFromMembers(f, 0);
  }

  /** The columns at the positions in js converted to strings and stripped. */
  function StripColumns(f: Frame, js: seq<nat>, render: real -> string): Frame {
    Frame(f.columns, seq(|f.rows|, i requires 0 <= i < |f.rows| =>
      seq(|f.rows[i]|, j requires 0 <= j < |f.rows[i]| =>
        if j in js then StripCell(f.rows[i][j], render) else f.rows[i][j])))
  }

  /** Every text column converted to strings and stripped; the others as they were. */
  function StripText(f: Frame, render: real -> string): Frame {
    StripColumns(f, TextColumnList(f), render)
  }

  /** Stripping one more column is one more MapColumn; stripping twice is stripping once. */
  lemma StripColumnsStep(f: Frame, js: seq<nat>, j: nat, render: real -> string)
    ensures MapColumn(StripColumns(f, js, render).rows, j, c => StripCell(c, render))
            == StripColumns(f, js + [j], render).rows
  {
    var g := StripColumns(f, js, render);
    var lhs := MapColumn(g.rows, j, c => StripCell(c, render));
    var rhs := StripColumns(f, js + [j], render).rows;
    MapColumnCells(g.rows, j, c => StripCell(c, render));
    forall i | 0 <= i < |f.rows| ensures lhs[i] == rhs[i] {
      forall k | 0 <= k < |f.rows[i]| ensures lhs[i][k] == rhs[i][k] {
        if k == j && j in js {
          TrimIdempotent(Show(f.rows[i][k], render));
        }
      }
    }
  }

  /**
   After stripping, a text column holds only stripped text, and in
   particular no missing cell; every other column is unchanged.
   */
  lemma StripTextEffect(f: Frame, render: real -> string)
    requires WellFormed(f)
    ensures var g := StripText(f, render);
      && WellFormed(g) && g.columns == f.columns && |g.rows| == |f.rows|
      && forall i, j :: 0 <= i < |f.rows| && 0 <= j < |f.columns| ==>
           if IsTextColumn(f.rows, j)
           then g.rows[i][j].Text? && g.rows[i][j].s == Trim(Show(f.rows[i][j], render))
           else g.rows[i][j] == f.rows[i][j]
  {
    TextColumnListMembers(f);
  }

  /** Stripping a stripped table changes nothing. */
  lemma StripTextIdempotent(f: Frame, render: real -> string)
    requires WellFormed(f)
    ensures StripText(StripText(f, render), render) == StripText(f, render)
  {
    var g := StripText(f, render);
    StripTextKeepsTextColumns(f, render);
    var h := StripColumns(g, TextColumnList(f), render);
    forall i | 0 <= i < |h.rows| ensures h.rows[i] == g.rows[i] {
      forall j | 0 <= j < |g.rows[i]| ensures h.rows[i][j] == g.rows[i][j] {
        if j in TextColumnList(f) {
          TrimIdempotent(Show(f.rows[i][j], render));
        }
      }
    }
  }

  /** Stripping keeps the text columns text and adds no text elsewhere. */
  lemma StripTextKeepsTextColumns(f: Frame, render: real -> string)
    requires WellFormed(f)
    ensures TextColumnList(StripText(f, render)) == TextColumnList(f)
  {
    var g := StripText(f, render);
    StripTextEffect(f, render);
    forall j | 0 <= j < |f.columns| ensures IsTextColumn(g.rows, j) <==> IsTextColumn(f.rows, j) {
      if IsTextColumn(f.rows, j) {
        var i :| 0 <= i < |f.rows| && At(f.rows[i], j).Text?;
        assert At(g.rows[i], j).Text?;
      } else {
        forall i | 0 <= i < |g.rows| ensures !At(g.rows[i], j).Text? {
          assert !At(f.rows[i], j).Text?;
        }
      }
    }
    TextColumnsFromSame(f, g, 0);
  }

  lemma {:induction false} TextColumnsFromSame(f: Frame, g: Frame, j: nat)
    requires |f.columns| == |g.columns|
    requires forall m :: j <= m < |f.columns| ==> (IsTextColumn(g.rows, m) <==> IsTextColumn(f.rows, m))
    decreases |f.columns| - j
    ensures TextColumnsFrom(g, j) == TextColumnsFrom(f, j)
  {
    if j < |f.columns| {
      TextColumnsFromSame(f, g, j + 1);
    }
  }

  // ---------------------------------------------------------------------
  // Numeric coercion of the role columns (pd.to_numeric(errors='coerce'))
  // ---------------------------------------------------------------------

  /** The columns of the first k numeric roles; `if col:` skips an absent or empty name. */
  function CoercedNames(roles: Roles, k: nat): set<string>
    requires k <= 4
  {
    set o | o in roles.NumericRoles()[..k] && o.Some? && o.value != "" :: o.value
  }

  /** The coerced names grow by the k-th numeric role, when it names a non-empty column. */
  lemma CoercedNamesStep(roles: Roles, k: nat)
    requires k < 4
    ensures var o := roles.NumericRoles()[k];
      if o.Some? && o.value != "" then CoercedNames(roles, k + 1) == CoercedNames(roles, k) + {o.value}
      else CoercedNames(roles, k + 1) == CoercedNames(roles, k)
  {
    var keys := roles.NumericRoles();
    assert keys[..k + 1] == keys[..k] + [keys[k]];
  }

  function CoerceIfNumeric(names: set<string>, name: string, c: Cell, parse: string -> Option<real>): Cell {
    if name in names then CoerceCell(c, parse) else c
  }

  /** The columns named in names coerced to numbers. */
  function CoerceColumns(f: Frame, names: set<string>, parse: string -> Option<real>): Frame {
    Frame(f.columns, seq(|f.rows|, i requires 0 <= i < |f.rows| =>
      seq(|f.rows[i]|, j requires 0 <= j < |f.rows[i]| =>
        if j < |f.columns| then CoerceIfNumeric(names, f.columns[j], f.rows[i][j], parse)
        else f.rows[i][j])))
  }

  /** The price, competitor price, cost and units columns coerced to numbers. */
  function Coerce(f: Frame, roles: Roles, parse: string -> Option<real>): Frame {
    CoerceColumns(f, CoercedNames(roles, 4), parse)
  }

  /** Coercing one more column is one more MapColumn; coercing twice is coercing once. */
  lemma CoerceColumnsStep(f: Frame, names: set<string>, name: string, parse: string -> Option<real>)
    requires WellFormed(f) && name in f.columns
    ensures MapColumn(CoerceColumns(f, names, parse).rows, IndexOf(f.columns, name), c => CoerceCell(c, parse))
            == CoerceColumns(f, names + {name}, parse).rows
  {
    var g := CoerceColumns(f, names, parse);
    var j := IndexOf(f.columns, name);
    var lhs := MapColumn(g.rows, j, c => CoerceCell(c, parse));
    var rhs := CoerceColumns(f, names + {name}, parse).rows;
    MapColumnCells(g.rows, j, c => CoerceCell(c, parse));
    forall i | 0 <= i < |f.rows| ensures lhs[i] == rhs[i] {
      forall k | 0 <= k < |f.rows[i]| ensures lhs[i][k] == rhs[i][k] {
        if k == j {
          CoerceCellIdempotent(f.rows[i][k], parse);
        }
      }
    }
  }

  /** Coercing a coerced cell changes nothing. */
  lemma CoerceCellIdempotent(c: Cell, parse: string -> Option<real>)
    ensures CoerceCell(CoerceCell(c, parse), parse) == CoerceCell(c, parse)
  {
  }

  /**
   A coerced column holds the coerced cells, so no text; a column that is
   not a numeric role is unchanged.
   */
  lemma CoerceEffect(f: Frame, roles: Roles, parse: string -> Option<real>)
    requires WellFormed(f)
    ensures var g := Coerce(f, roles, parse);
      && WellFormed(g) && g.columns == f.columns && |g.rows| == |f.rows|
      && forall i, j :: 0 <= i < |f.rows| && 0 <= j < |f.columns| ==>
           if f.columns[j] in CoercedNames(roles, 4)
           then g.rows[i][j] == CoerceCell(f.rows[i][j], parse) && !g.rows[i][j].Text?
                && (f.rows[i][j].Num? ==> g.rows[i][j] == f.rows[i][j])
           else g.rows[i][j] == f.rows[i][j]
  {
  }

  /** Stripping and coercion keep the header and the number of rows. */
  lemma StripTextShape(f: Frame, render: real -> string)
    requires WellFormed(f)
    ensures var g := StripText(f, render);
      WellFormed(g) && g.columns == f.columns && |g.rows| == |f.rows|
  {
    StripTextEffect(f, render);
  }

  lemma CoerceShape(f: Frame, roles: Roles, parse: string -> Option<real>)
    requires WellFormed(f)
    ensures var g := Coerce(f, roles, parse);
      WellFormed(g) && g.columns == f.columns && |g.rows| == |f.rows|
  {
    CoerceEffect(f, roles, parse);
  }

  /** Every non-empty numeric role is among the coerced columns. */
  lemma CoercedRoles(roles: Roles)
    ensures forall o :: o in roles.NumericRoles() && o.Some? && o.value != "" ==> o.value in CoercedNames(roles, 4)
  {
    assert roles.NumericRoles()[..4] == roles.NumericRoles();
  }

  /** A coerced column holds no text. */
  lemma CoercedColumnNoText(f: Frame, roles: Roles, parse: string -> Option<real>, name: string)
    requires WellFormed(f) && name in f.columns && name in CoercedNames(roles, 4)
    ensures var g := Coerce(f, roles, parse);
      name in g.columns && forall i :: 0 <= i < |g.rows| ==> !Column(g, name)[i].Text?
  {
    CoerceEffect(f, roles, parse);
  }

  /** A column property that holds in f holds in a table made of rows of f. */
  lemma NoTextInSubRows(f: Frame, g: Frame, name: string)
    requires g.columns == f.columns && name in f.columns
    requires forall k :: 0 <= k < |g.rows| ==> g.rows[k] in f.rows
    requires forall i :: 0 <= i < |f.rows| ==> !Column(f, name)[i].Text?
    ensures forall i :: 0 <= i < |g.rows| ==> !Column(g, name)[i].Text?
  {
    forall i | 0 <= i < |g.rows| ensures !Column(g, name)[i].Text? {
      var m :| 0 <= m < |f.rows| && f.rows[m] == g.rows[i];
      assert Column(f, name)[m] == Column(g, name)[i];
    }
  }

  // ---------------------------------------------------------------------
  // Row selection: duplicates (drop_duplicates) and missing keys (dropna)
  // ---------------------------------------------------------------------

  function DropDuplicates(f: Frame): Frame {
    Frame(f.columns, Dedup(f.rows))
  }

  /** The row has a price and a part cell (neither is NaN). */
  predicate KeysPresent(row: Row, price: nat, part: nat) {
    !At(row, price).Missing? && !At(row, part).Missing?
  }

  /** Rows missing their price or their part cell are dropped (dropna(subset=[price, part])). */
  function DropMissingKeys(f: Frame, price: string, part: string): Frame
    requires price in f.columns && part in f.columns
  {
    var pi, pa := IndexOf(f.columns, price), IndexOf(f.columns, part);
    Frame(f.columns, Filter(f.rows, row => KeysPresent(row, pi, pa)))
  }

  // ---------------------------------------------------------------------
  // Derived columns (df['X'] = ...)
  // ---------------------------------------------------------------------

  function Missings(n: nat): (r: seq<Cell>)
    ensures |r| == n && forall i :: 0 <= i < n ==> r[i] == Missing
  {
    seq(n, _ => Missing)
  }

  /** The header after assigning column name: unchanged if present, else extended by it. */
  function AddName(columns: seq<string>, name: string): (r: seq<string>)
    ensures name in r
  {
    if name in columns then columns else columns + [name]
  }

  /** Assigning a name keeps the header as a prefix and adds at most that name. */
  lemma AddNameExtends(columns: seq<string>, name: string)
    ensures var r := AddName(columns, name);
      && |columns| <= |r| && r[..|columns|] == columns
      && forall c :: c in r ==> c in columns || c == name
  {
  }

  /** The header after the four derived columns are assigned. */
  function DerivedHeader(columns: seq<string>): seq<string> {
    AddName(AddName(AddName(AddName(columns, PRICE_DIFF), PRICE_PCT_DIFF), MARGIN), REVENUE_CALC)
  }

  /** The table has all four derived columns. */
  ghost predicate HasDerived(f: Frame) {
    PRICE_DIFF in f.columns && PRICE_PCT_DIFF in f.columns && MARGIN in f.columns && REVENUE_CALC in f.columns
  }

  /** A header extended with the derived names has them all and keeps every original name. */
  lemma DerivedHeaderHas(columns: seq<string>)
    ensures var h := DerivedHeader(columns);
      && PRICE_DIFF in h && PRICE_PCT_DIFF in h && MARGIN in h && REVENUE_CALC in h
      && forall c :: c in columns ==> c in h
  {
    var h := DerivedHeader(columns);
    DerivedHeaderExtends(columns);
    forall c | c in columns ensures c in h {
      var i :| 0 <= i < |columns| && columns[i] == c;
      assert h[i] == c;
    }
  }

  lemma DerivedHeaderExtends(columns: seq<string>)
    ensures var h := DerivedHeader(columns);
      && |columns| <= |h| && h[..|columns|] == columns
      && PRICE_DIFF in h && PRICE_PCT_DIFF in h && MARGIN in h && REVENUE_CALC in h
      && forall c :: c in h ==> c in columns || !NotDerived(c)
  {
    var h1 := AddName(columns, PRICE_DIFF);
    var h2 := AddName(h1, PRICE_PCT_DIFF);
    var h3 := AddName(h2, MARGIN);
    var h := AddName(h3, REVENUE_CALC);
    AddNameExtends(columns, PRICE_DIFF);
    AddNameExtends(h1, PRICE_PCT_DIFF);
    AddNameExtends(h2, MARGIN);
    AddNameExtends(h3, REVENUE_CALC);
    assert h2[..|columns|] == h2[..|h1|][..|columns|];
    assert h3[..|columns|] == h3[..|h2|][..|columns|];
    assert h[..|columns|] == h[..|h3|][..|columns|];
  }

  /**
   Assigning a whole column: a column of that name is overwritten in place,
   otherwise the column is appended at the end.
   */
  function SetColumn(f: Frame, name: string, values: seq<Cell>): (g: Frame)
    requires WellFormed(f) && |values| == |f.rows|
    ensures WellFormed(g) && |g.rows| == |f.rows| && name in g.columns
    ensures g.columns == AddName(f.columns, name)
    ensures Column(g, name) == values
    ensures forall c {:trigger Column(g, c)} :: c in f.columns && c != name ==> Column(g, c) == Column(f, c)
  {
    if name in f.columns then ReplaceColumn(f, name, values) else AppendColumn(f, name, values)
  }

  /** Assignment to an existing column: the cells at its position are replaced. */
  function ReplaceColumn(f: Frame, name: string, values: seq<Cell>): (g: Frame)
    requires WellFormed(f) && |values| == |f.rows| && name in f.columns
    ensures WellFormed(g) && |g.rows| == |f.rows| && g.columns == f.columns
    ensures Column(g, name) == values
    ensures forall c {:trigger Column(g, c)} :: c in f.columns && c != name ==> Column(g, c) == Column(f, c)
  {
    var j := IndexOf(f.columns, name);
    Frame(f.columns, seq(|f.rows|, i requires 0 <= i < |f.rows| => f.rows[i][j := values[i]]))
  }

  /** Assignment to a new column: it is appended after the existing ones. */
  function AppendColumn(f: Frame, name: string, values: seq<Cell>): (g: Frame)
    requires WellFormed(f) && |values| == |f.rows| && name !in f.columns
    ensures WellFormed(g) && |g.rows| == |f.rows| && g.columns == f.columns + [name]
    ensures Column(g, name) == values
    ensures forall c {:trigger Column(g, c)} :: c in f.columns ==> Column(g, c) == Column(f, c)
  {
    var g := Frame(f.columns + [name], seq(|f.rows|, i requires 0 <= i < |f.rows| => f.rows[i] + [values[i]]));
    assert forall c :: c in f.columns ==> IndexOf(g.columns, c) == IndexOf(f.columns, c) by {
      forall c | c in f.columns ensures IndexOf(g.columns, c) == IndexOf(f.columns, c) {
        IndexOfPrefix(f.columns, [name], c);
      }
    }
    IndexOfLast(f.columns, name);
    g
  }

  lemma {:induction false} IndexOfPrefix(a: seq<string>, b: seq<string>, c: string)
    requires c in a
    ensures IndexOf(a + b, c) == IndexOf(a, c)
  {
    if a[0] != c {
      assert (a + b)[1..] == a[1..] + b;
      IndexOfPrefix(a[1..], b, c);
    }
  }

  lemma IndexOfLast(a: seq<string>, c: string)
    requires c !in a
    ensures IndexOf(a + [c], c) == |a|
  {
  }

  /** Price_diff = price - competitor price (missing for every row without a competitor column). */
  function PriceDiffValues(f: Frame, roles: Roles): (r: seq<Cell>)
    requires roles.price.Some? && roles.price.value in f.columns && Resolved(roles.competitorPrice, f.columns)
    ensures |r| == |f.rows|
  {
    if roles.competitorPrice.Some? then
      var p, c := Column(f, roles.price.value), Column(f, roles.competitorPrice.value);
      seq(|f.rows|, i requires 0 <= i < |f.rows| => Sub(p[i], c[i]))
    else Missings(|f.rows|)
  }

  /** Price_pct_diff = Price_diff / competitor price * 100. */
  function PricePctDiffValues(f: Frame, roles: Roles): (r: seq<Cell>)
    requires PRICE_DIFF in f.columns && Resolved(roles.competitorPrice, f.columns)
    ensures |r| == |f.rows|
  {
    if roles.competitorPrice.Some? then
      var d, c := Column(f, PRICE_DIFF), Column(f, roles.competitorPrice.value);
      seq(|f.rows|, i requires 0 <= i < |f.rows| => Mul(Div(d[i], c[i]), Num(100.0)))
    else Missings(|f.rows|)
  }

  /** Margin = price - cost. */
  function MarginValues(f: Frame, roles: Roles): (r: seq<Cell>)
    requires roles.price.Some? && roles.price.value in f.columns && Resolved(roles.cost, f.columns)
    ensures |r| == |f.rows|
  {
    if roles.cost.Some? then
      var p, c := Column(f, roles.price.value), Column(f, roles.cost.value);
      seq(|f.rows|, i requires 0 <= i < |f.rows| => Sub(p[i], c[i]))
    else Missings(|f.rows|)
  }

  /** Revenue_calc = price * units. */
  function RevenueCalcValues(f: Frame, roles: Roles): (r: seq<Cell>)
    requires roles.price.Some? && roles.price.value in f.columns && Resolved(roles.units, f.columns)
    ensures |r| == |f.rows|
  {
    if roles.units.Some? then
      var p, u := Column(f, roles.price.value), Column(f, roles.units.value);
      seq(|f.rows|, i requires 0 <= i < |f.rows| => Mul(p[i], u[i]))
    else Missings(|f.rows|)
  }

  /** The roles the derivation reads are columns of f. */
  ghost predicate DerivableRoles(f: Frame, roles: Roles) {
    roles.price.Some? && roles.price.value in f.columns &&
    Resolved(roles.competitorPrice, f.columns) && Resolved(roles.cost, f.columns) &&
    Resolved(roles.units, f.columns)
  }

  lemma SetColumnKeepsRoles(f: Frame, name: string, values: seq<Cell>, roles: Roles)
    requires WellFormed(f) && |values| == |f.rows| && DerivableRoles(f, roles)
    ensures DerivableRoles(SetColumn(f, name, values), roles)
  {
  }

  /** The table after the first, second and third derived column (lines 77, 78, 79). */
  function Stage1(f: Frame, roles: Roles): (g: Frame)
    requires WellFormed(f) && DerivableRoles(f, roles)
    ensures WellFormed(g) && DerivableRoles(g, roles)
  {
    SetColumnKeepsRoles(f, PRICE_DIFF, PriceDiffValues(f, roles), roles);
    SetColumn(f, PRICE_DIFF, PriceDiffValues(f, roles))
  }

  function Stage2(f: Frame, roles: Roles): (g: Frame)
    requires WellFormed(f) && DerivableRoles(f, roles)
    ensures WellFormed(g) && DerivableRoles(g, roles)
  {
    var f1 := Stage1(f, roles);
    SetColumnKeepsRoles(f1, PRICE_PCT_DIFF, PricePctDiffValues(f1, roles), roles);
    SetColumn(f1, PRICE_PCT_DIFF, PricePctDiffValues(f1, roles))
  }

  function Stage3(f: Frame, roles: Roles): (g: Frame)
    requires WellFormed(f) && DerivableRoles(f, roles)
    ensures WellFormed(g) && DerivableRoles(g, roles)
  {
    var f2 := Stage2(f, roles);
    SetColumnKeepsRoles(f2, MARGIN, MarginValues(f2, roles), roles);
    SetColumn(f2, MARGIN, MarginValues(f2, roles))
  }

  /** The four derived columns, added one after the other as the assignments run. */
  function Derive(f: Frame, roles: Roles): (g: Frame)
    requires WellFormed(f) && DerivableRoles(f, roles)
    ensures WellFormed(g) && |g.rows| == |f.rows| && g.columns == DerivedHeader(f.columns)
  {
    var f3 := Stage3(f, roles);
    SetColumn(f3, REVENUE_CALC, RevenueCalcValues(f3, roles))
  }

  /** The roles are plain names (non-empty, not derived) and columns of f. */
  ghost predicate PlainRoles(f: Frame, roles: Roles) {
    DerivableRoles(f, roles) &&
    Plain(roles.price) && Plain(roles.competitorPrice) && Plain(roles.cost) && Plain(roles.units)
  }

  /**
   The derived columns hold the metrics of the same row's own cells; the
   original columns keep their place and, except a column that carried a
   derived name, their values.
   */
  lemma DeriveEffect(f: Frame, roles: Roles)
    requires WellFormed(f) && PlainRoles(f, roles)
    ensures var g := Derive(f, roles);
      && WellFormed(g) && |g.rows| == |f.rows|
      && |f.columns| <= |g.columns| && g.columns[..|f.columns|] == f.columns
      && PRICE_DIFF in g.columns && PRICE_PCT_DIFF in g.columns && MARGIN in g.columns && REVENUE_CALC in g.columns
      && (forall c :: c in g.columns ==> c in f.columns || !NotDerived(c))
      && (forall c :: c in f.columns && NotDerived(c) ==> Column(g, c) == Column(f, c))
  {
    var g := Derive(f, roles);
    DerivedHeaderExtends(f.columns);
    forall c | c in f.columns && NotDerived(c) ensures Column(g, c) == Column(f, c) {
      StagesKeepColumn(f, roles, c);
    }
  }

  /** A plain role column reads the same at every stage of the derivation. */
  lemma StagesKeepColumn(f: Frame, roles: Roles, c: string)
    requires WellFormed(f) && DerivableRoles(f, roles) && c in f.columns && NotDerived(c)
    ensures c in Stage1(f, roles).columns && Column(Stage1(f, roles), c) == Column(f, c)
    ensures c in Stage2(f, roles).columns && Column(Stage2(f, roles), c) == Column(f, c)
    ensures c in Stage3(f, roles).columns && Column(Stage3(f, roles), c) == Column(f, c)
    ensures c in Derive(f, roles).columns && Column(Derive(f, roles), c) == Column(f, c)
  {
    assert Derive(f, roles) == SetColumn(Stage3(f, roles), REVENUE_CALC, RevenueCalcValues(Stage3(f, roles), roles));
  }

  lemma DerivedColumnsAre(f: Frame, roles: Roles)
    requires WellFormed(f) && DerivableRoles(f, roles)
    ensures var g := Derive(f, roles);
      && PRICE_DIFF in g.columns && PRICE_PCT_DIFF in g.columns && MARGIN in g.columns && REVENUE_CALC in g.columns
      && Column(g, PRICE_DIFF) == PriceDiffValues(f, roles)
      && Column(g, PRICE_PCT_DIFF) == PricePctDiffValues(Stage1(f, roles), roles)
      && Column(g, MARGIN) == MarginValues(Stage2(f, roles), roles)
      && Column(g, REVENUE_CALC) == RevenueCalcValues(Stage3(f, roles), roles)
  {
    var f1, f2, f3 := Stage1(f, roles), Stage2(f, roles), Stage3(f, roles);
    var g := Derive(f, roles);
    assert g == SetColumn(f3, REVENUE_CALC, RevenueCalcValues(f3, roles));
    assert Column(f3, PRICE_DIFF) == Column(f2, PRICE_DIFF) == Column(f1, PRICE_DIFF);
    assert Column(f3, PRICE_PCT_DIFF) == Column(f2, PRICE_PCT_DIFF);
  }

  /** Price_diff and Price_pct_diff of every row, or missing throughout without a competitor column. */
  lemma DerivePriceDiff(f: Frame, roles: Roles)
    requires WellFormed(f) && PlainRoles(f, roles)
    ensures var g := Derive(f, roles);
      var p := Column(f, roles.price.value);
      && PRICE_DIFF in g.columns && PRICE_PCT_DIFF in g.columns
      && (roles.competitorPrice.None? ==>
            Column(g, PRICE_DIFF) == Missings(|f.rows|) && Column(g, PRICE_PCT_DIFF) == Missings(|f.rows|))
      && (roles.competitorPrice.Some? ==>
            var c := Column(f, roles.competitorPrice.value);
            forall i :: 0 <= i < |f.rows| ==>
              && Column(g, PRICE_DIFF)[i] == Sub(p[i], c[i])
              && Column(g, PRICE_PCT_DIFF)[i] == Mul(Div(Sub(p[i], c[i]), c[i]), Num(100.0)))
  {
    DerivedColumnsAre(f, roles);
    var f1 := Stage1(f, roles);
    assert Column(f1, PRICE_DIFF) == PriceDiffValues(f, roles);
    if roles.competitorPrice.Some? {
      StagesKeepColumn(f, roles, roles.competitorPrice.value);
    }
  }

  /** Margin of every row, or missing throughout without a cost column. */
  lemma DeriveMargin(f: Frame, roles: Roles)
    requires WellFormed(f) && PlainRoles(f, roles)
    ensures var g := Derive(f, roles);
      && MARGIN in g.columns
      && (roles.cost.None? ==> Column(g, MARGIN) == Missings(|f.rows|))
      && (roles.cost.Some? ==>
            var p, c := Column(f, roles.price.value), Column(f, roles.cost.value);
            forall i :: 0 <= i < |f.rows| ==> Column(g, MARGIN)[i] == Sub(p[i], c[i]))
  {
    DerivedColumnsAre(f, roles);
    if roles.cost.Some? {
      DeriveMarginPresent(f, roles);
    }
  }

  lemma DeriveMarginPresent(f: Frame, roles: Roles)
    requires WellFormed(f) && PlainRoles(f, roles) && roles.cost.Some?
    ensures var g := Derive(f, roles);
      var p, c := Column(f, roles.price.value), Column(f, roles.cost.value);
      && MARGIN in g.columns
      && forall i :: 0 <= i < |f.rows| ==> Column(g, MARGIN)[i] == Sub(p[i], c[i])
  {
    DerivedColumnsAre(f, roles);
    StagesKeepColumn(f, roles, roles.price.value);
    StagesKeepColumn(f, roles, roles.cost.value);
  }

  /** Revenue_calc of every row, or missing throughout without a units column. */
  lemma DeriveRevenue(f: Frame, roles: Roles)
    requires WellFormed(f) && PlainRoles(f, roles)
    ensures var g := Derive(f, roles);
      && REVENUE_CALC in g.columns
      && (roles.units.None? ==> Column(g, REVENUE_CALC) == Missings(|f.rows|))
      && (roles.units.Some? ==>
            var p, u := Column(f, roles.price.value), Column(f, roles.units.value);
            forall i :: 0 <= i < |f.rows| ==> Column(g, REVENUE_CALC)[i] == Mul(p[i], u[i]))
  {
    DerivedColumnsAre(f, roles);
    if roles.units.Some? {
      DeriveRevenuePresent(f, roles);
    }
  }

  lemma DeriveRevenuePresent(f: Frame, roles: Roles)
    requires WellFormed(f) && PlainRoles(f, roles) && roles.units.Some?
    ensures var g := Derive(f, roles);
      var p, u := Column(f, roles.price.value), Column(f, roles.units.value);
      && REVENUE_CALC in g.columns
      && forall i :: 0 <= i < |f.rows| ==> Column(g, REVENUE_CALC)[i] == Mul(p[i], u[i])
  {
    DerivedColumnsAre(f, roles);
    StagesKeepColumn(f, roles, roles.price.value);
    StagesKeepColumn(f, roles, roles.units.value);
  }

  /** Appending a column to rows that are pairwise distinct keeps them distinct. */
  lemma SetNewColumnNoDup(f: Frame, name: string, values: seq<Cell>)
    requires WellFormed(f) && |values| == |f.rows| && name !in f.columns && NoDup(f.rows)
    ensures NoDup(SetColumn(f, name, values).rows)
  {
    var g := SetColumn(f, name, values);
    forall i, j | 0 <= i < j < |g.rows| ensures g.rows[i] != g.rows[j] {
      assert g.rows[i][..|f.columns|] == f.rows[i];
      assert g.rows[j][..|f.columns|] == f.rows[j];
    }
  }

  /** When the input has none of the derived names, deriving keeps distinct rows distinct. */
  lemma DeriveNoDup(f: Frame, roles: Roles)
    requires WellFormed(f) && PlainRoles(f, roles) && NoDup(f.rows)
    requires forall c :: c in f.columns ==> NotDerived(c)
    ensures NoDup(Derive(f, roles).rows)
  {
    Stage3NoDup(f, roles);
    var f3 := Stage3(f, roles);
    SetNewColumnNoDup(f3, REVENUE_CALC, RevenueCalcValues(f3, roles));
  }

  /**
   Preconditions of the duplicate-freedom lemmas below: a well-formed table
   without equal rows, none of whose columns carries a derived name.
   */
  ghost predicate NoDerivedNameClash(f: Frame, roles: Roles) {
    WellFormed(f) && DerivableRoles(f, roles) && NoDup(f.rows) &&
    forall c :: c in f.columns ==> NotDerived(c)
  }

  lemma Stage1NoDup(f: Frame, roles: Roles)
    requires NoDerivedNameClash(f, roles)
    ensures NoDup(Stage1(f, roles).rows)
    ensures var c := Stage1(f, roles).columns; PRICE_PCT_DIFF !in c && MARGIN !in c && REVENUE_CALC !in c
  {
    assert PRICE_DIFF !in f.columns && PRICE_PCT_DIFF !in f.columns;
    assert MARGIN !in f.columns && REVENUE_CALC !in f.columns;
    SetNewColumnNoDup(f, PRICE_DIFF, PriceDiffValues(f, roles));
  }

  lemma Stage2NoDup(f: Frame, roles: Roles)
    requires NoDerivedNameClash(f, roles)
    ensures NoDup(Stage2(f, roles).rows)
    ensures var c := Stage2(f, roles).columns; MARGIN !in c && REVENUE_CALC !in c
  {
    Stage1NoDup(f, roles);
    var f1 := Stage1(f, roles);
    SetNewColumnNoDup(f1, PRICE_PCT_DIFF, PricePctDiffValues(f1, roles));
  }

  lemma Stage3NoDup(f: Frame, roles: Roles)
    requires NoDerivedNameClash(f, roles)
    ensures NoDup(Stage3(f, roles).rows)
    ensures REVENUE_CALC !in Stage3(f, roles).columns
  {
    Stage2NoDup(f, roles);
    var f2 := Stage2(f, roles);
    SetNewColumnNoDup(f2, MARGIN, MarginValues(f2, roles));
  }

  /**
   The derived columns hold the metrics of their own row, read from the
   table's own columns: Price_diff = price - competitor price,
   Price_pct_diff = Price_diff / competitor price * 100, Margin = price -
   cost and Revenue_calc = price * units, each missing throughout when its
   column did not resolve.
   */
  ghost predicate MetricsHold(g: Frame, roles: Roles) {
    && HasDerived(g) && roles.price.Some? && roles.price.value in g.columns
    && Resolved(roles.competitorPrice, g.columns) && Resolved(roles.cost, g.columns) && Resolved(roles.units, g.columns)
    && var p := Column(g, roles.price.value);
    && (forall i :: 0 <= i < |g.rows| ==>
          Column(g, PRICE_DIFF)[i] ==
            (if roles.competitorPrice.None? then Missing else Sub(p[i], Column(g, roles.competitorPrice.value)[i])))
    && (forall i :: 0 <= i < |g.rows| ==>
          Column(g, PRICE_PCT_DIFF)[i] ==
            (if roles.competitorPrice.None? then Missing
             else Mul(Div(Column(g, PRICE_DIFF)[i], Column(g, roles.competitorPrice.value)[i]), Num(100.0))))
    && (forall i :: 0 <= i < |g.rows| ==>
          Column(g, MARGIN)[i] == (if roles.cost.None? then Missing else Sub(p[i], Column(g, roles.cost.value)[i])))
    && (forall i :: 0 <= i < |g.rows| ==>
          Column(g, REVENUE_CALC)[i] == (if roles.units.None? then Missing else Mul(p[i], Column(g, roles.units.value)[i])))
  }

  /** After the derivation the metrics hold in the derived table. */
  lemma DeriveMetrics(f: Frame, roles: Roles)
    requires WellFormed(f) && PlainRoles(f, roles)
    ensures MetricsHold(Derive(f, roles), roles)
  {
    DeriveKeepsRoles(f, roles);
    DerivePriceDiff(f, roles);
    DeriveMargin(f, roles);
    DeriveRevenue(f, roles);
  }

  /** The role columns read the same before and after the derivation. */
  lemma DeriveKeepsRoles(f: Frame, roles: Roles)
    requires WellFormed(f) && PlainRoles(f, roles)
    ensures var g := Derive(f, roles);
      && Resolved(roles.competitorPrice, g.columns) && Resolved(roles.cost, g.columns) && Resolved(roles.units, g.columns)
      && roles.price.value in g.columns && Column(g, roles.price.value) == Column(f, roles.price.value)
      && (roles.competitorPrice.Some? ==> Column(g, roles.competitorPrice.value) == Column(f, roles.competitorPrice.value))
      && (roles.cost.Some? ==> Column(g, roles.cost.value) == Column(f, roles.cost.value))
      && (roles.units.Some? ==> Column(g, roles.units.value) == Column(f, roles.units.value))
  {
    DeriveEffect(f, roles);
  }

  /** Rows i and j agree on every column whose name is not in d. */
  ghost predicate AgreeExcept(f: Frame, i: nat, j: nat, d: set<string>)
    requires i < |f.rows| && j < |f.rows|
  {
    forall c :: c in f.columns && c !in d ==> Column(f, c)[i] == Column(f, c)[j]
  }

  /** Assigning a column whose values agree at i and j extends the agreement to that column. */
  lemma SetColumnAgree(f: Frame, name: string, values: seq<Cell>, i: nat, j: nat, d: set<string>)
    requires WellFormed(f) && |values| == |f.rows| && i < |f.rows| && j < |f.rows|
    requires AgreeExcept(f, i, j, d) && values[i] == values[j]
    ensures AgreeExcept(SetColumn(f, name, values), i, j, d - {name})
  {
    AddNameExtends(f.columns, name);
  }

  /** Rows that agree on every column are equal. */
  lemma AgreeEverywhere(f: Frame, i: nat, j: nat)
    requires WellFormed(f) && i < |f.rows| && j < |f.rows| && AgreeExcept(f, i, j, {})
    ensures f.rows[i] == f.rows[j]
  {
    forall k | 0 <= k < |f.columns| ensures f.rows[i][k] == f.rows[j][k] {
      var c := f.columns[k];
      assert IndexOf(f.columns, c) == k;
      assert Column(f, c)[i] == Column(f, c)[j];
    }
  }

  /** Rows that agree outside d agree on a column c outside d. */
  lemma AgreeAt(f: Frame, i: nat, j: nat, d: set<string>, c: string)
    requires i < |f.rows| && j < |f.rows| && AgreeExcept(f, i, j, d) && c in f.columns && c !in d
    ensures Column(f, c)[i] == Column(f, c)[j]
  {
  }

  /** The names of the derived columns. */
  const DERIVED: set<string> := {PRICE_DIFF, PRICE_PCT_DIFF, MARGIN, REVENUE_CALC}

  /** Each assignment below keeps two rows that agree outside the names still to be assigned in agreement. */
  lemma Stage1Agree(g: Frame, roles: Roles, i: nat, j: nat)
    requires WellFormed(g) && DerivableRoles(g, roles) && Plain(roles.price) && Plain(roles.competitorPrice)
    requires i < |g.rows| && j < |g.rows| && AgreeExcept(g, i, j, DERIVED)
    ensures AgreeExcept(SetColumn(g, PRICE_DIFF, PriceDiffValues(g, roles)), i, j, {PRICE_PCT_DIFF, MARGIN, REVENUE_CALC})
  {
    var v := PriceDiffValues(g, roles);
    AgreeAt(g, i, j, DERIVED, roles.price.value);
    if roles.competitorPrice.Some? {
      AgreeAt(g, i, j, DERIVED, roles.competitorPrice.value);
    }
    SetColumnAgree(g, PRICE_DIFF, v, i, j, DERIVED);
    assert DERIVED - {PRICE_DIFF} == {PRICE_PCT_DIFF, MARGIN, REVENUE_CALC};
  }

  lemma Stage2Agree(g: Frame, roles: Roles, i: nat, j: nat)
    requires WellFormed(g) && PRICE_DIFF in g.columns && Resolved(roles.competitorPrice, g.columns)
    requires Plain(roles.competitorPrice)
    requires i < |g.rows| && j < |g.rows| && AgreeExcept(g, i, j, {PRICE_PCT_DIFF, MARGIN, REVENUE_CALC})
    ensures AgreeExcept(SetColumn(g, PRICE_PCT_DIFF, PricePctDiffValues(g, roles)), i, j, {MARGIN, REVENUE_CALC})
  {
    var v := PricePctDiffValues(g, roles);
    AgreeAt(g, i, j, {PRICE_PCT_DIFF, MARGIN, REVENUE_CALC}, PRICE_DIFF);
    if roles.competitorPrice.Some? {
      AgreeAt(g, i, j, {PRICE_PCT_DIFF, MARGIN, REVENUE_CALC}, roles.competitorPrice.value);
    }
    SetColumnAgree(g, PRICE_PCT_DIFF, v, i, j, {PRICE_PCT_DIFF, MARGIN, REVENUE_CALC});
    assert {PRICE_PCT_DIFF, MARGIN, REVENUE_CALC} - {PRICE_PCT_DIFF} == {MARGIN, REVENUE_CALC};
  }

  lemma Stage3Agree(g: Frame, roles: Roles, i: nat, j: nat)
    requires WellFormed(g) && DerivableRoles(g, roles) && Plain(roles.price) && Plain(roles.cost)
    requires i < |g.rows| && j < |g.rows| && AgreeExcept(g, i, j, {MARGIN, REVENUE_CALC})
    ensures AgreeExcept(SetColumn(g, MARGIN, MarginValues(g, roles)), i, j, {REVENUE_CALC})
  {
    var v := MarginValues(g, roles);
    AgreeAt(g, i, j, {MARGIN, REVENUE_CALC}, roles.price.value);
    if roles.cost.Some? {
      AgreeAt(g, i, j, {MARGIN, REVENUE_CALC}, roles.cost.value);
    }
    SetColumnAgree(g, MARGIN, v, i, j, {MARGIN, REVENUE_CALC});
    assert {MARGIN, REVENUE_CALC} - {MARGIN} == {REVENUE_CALC};
  }

  lemma Stage4Agree(g: Frame, roles: Roles, i: nat, j: nat)
    requires WellFormed(g) && DerivableRoles(g, roles) && Plain(roles.price) && Plain(roles.units)
    requires i < |g.rows| && j < |g.rows| && AgreeExcept(g, i, j, {REVENUE_CALC})
    ensures AgreeExcept(SetColumn(g, REVENUE_CALC, RevenueCalcValues(g, roles)), i, j, {})
  {
    var v := RevenueCalcValues(g, roles);
    AgreeAt(g, i, j, {REVENUE_CALC}, roles.price.value);
    if roles.units.Some? {
      AgreeAt(g, i, j, {REVENUE_CALC}, roles.units.value);
    }
    SetColumnAgree(g, REVENUE_CALC, v, i, j, {REVENUE_CALC});
    assert {REVENUE_CALC} - {REVENUE_CALC} == {};
  }

  /**
   The derivation works row by row: two rows that agree on every column
   not carrying a derived name are equal afterwards. So an input column
   named like a derived one (a "Margin" column, say) is overwritten, and
   rows that differed only there become duplicates of each other.
   */
  lemma DeriveRowwise(f: Frame, roles: Roles, i: nat, j: nat)
    requires WellFormed(f) && PlainRoles(f, roles)
    requires i < |f.rows| && j < |f.rows| && AgreeExcept(f, i, j, DERIVED)
    ensures Derive(f, roles).rows[i] == Derive(f, roles).rows[j]
  {
    var f1, f2, f3 := Stage1(f, roles), Stage2(f, roles), Stage3(f, roles);
    Stage1Agree(f, roles, i, j);
    Stage2Agree(f1, roles, i, j);
    Stage3Agree(f2, roles, i, j);
    Stage4Agree(f3, roles, i, j);
    AgreeEverywhere(Derive(f, roles), i, j);
  }

  /**
   A row priced 120 against a competitor's 100 gets a price difference of
   20, which is 20 percent.
   */
  lemma PriceDiffExample(f: Frame, roles: Roles, i: nat)
    requires WellFormed(f) && PlainRoles(f, roles) && roles.competitorPrice.Some? && i < |f.rows|
    requires Column(f, roles.price.value)[i] == Num(120.0)
    requires Column(f, roles.competitorPrice.value)[i] == Num(100.0)
    ensures var g := Derive(f, roles);
      && PRICE_DIFF in g.columns && PRICE_PCT_DIFF in g.columns
      && Column(g, PRICE_DIFF)[i] == Num(20.0) && Column(g, PRICE_PCT_DIFF)[i] == Num(20.0)
  {
    DerivePriceDiff(f, roles);
  }

  /** A row priced 50 with cost 30 and 4 units gets a margin of 20 and a revenue of 200. */
  lemma MarginRevenueExample(f: Frame, roles: Roles, i: nat)
    requires WellFormed(f) && PlainRoles(f, roles) && roles.cost.Some? && roles.units.Some? && i < |f.rows|
    requires Column(f, roles.price.value)[i] == Num(50.0)
    requires Column(f, roles.cost.value)[i] == Num(30.0)
    requires Column(f, roles.units.value)[i] == Num(4.0)
    ensures var g := Derive(f, roles);
      && MARGIN in g.columns && REVENUE_CALC in g.columns
      && Column(g, MARGIN)[i] == Num(20.0) && Column(g, REVENUE_CALC)[i] == Num(200.0)
  {
    DeriveMargin(f, roles);
    DeriveRevenue(f, roles);
  }

  // ---------------------------------------------------------------------
  // Columns never mix text with other cells
  // ---------------------------------------------------------------------

  /** Cells none of which is text. */
  predicate NoText(cells: seq<Cell>) {
    forall i :: 0 <= i < |cells| ==> !cells[i].Text?
  }

  /** Cells all of which are text. */
  predicate AllText(cells: seq<Cell>) {
    forall i :: 0 <= i < |cells| ==> cells[i].Text?
  }

  /** Every column holds no text at all or only text (an object column after astype(str)). */
  ghost predicate Unmixed(f: Frame) {
    forall c :: c in f.columns ==> NoText(Column(f, c)) || AllText(Column(f, c))
  }

  /** In an unmixed table no column holds a number and a text cell. */
  lemma UnmixedNoNumberBesideText(f: Frame)
    requires Unmixed(f)
    ensures forall c, i, k :: c in f.columns && 0 <= i < |f.rows| && 0 <= k < |f.rows| ==>
              !(Column(f, c)[i].Num? && Column(f, c)[k].Text?)
  {
    forall c, i, k | c in f.columns && 0 <= i < |f.rows| && 0 <= k < |f.rows|
      ensures !(Column(f, c)[i].Num? && Column(f, c)[k].Text?)
    {
      assert NoText(Column(f, c)) || AllText(Column(f, c));
    }
  }

  /** Line 29 leaves every text column all text and every other column without text. */
  lemma StripTextUnmixed(f: Frame, render: real -> string)
    requires WellFormed(f)
    ensures Unmixed(StripText(f, render))
  {
    var g := StripText(f, render);
    StripTextEffect(f, render);
    forall c | c in g.columns ensures NoText(Column(g, c)) || AllText(Column(g, c)) {
      var j := IndexOf(f.columns, c);
      if IsTextColumn(f.rows, j) {
        assert AllText(Column(g, c));
      } else {
        forall i | 0 <= i < |g.rows| ensures !Column(g, c)[i].Text? {
          assert Column(g, c)[i] == f.rows[i][j] == At(f.rows[i], j);
        }
      }
    }
  }

  /** Coercion removes the text of a column or leaves the column as it was. */
  lemma CoerceKeepsUnmixed(f: Frame, roles: Roles, parse: string -> Option<real>)
    requires WellFormed(f) && Unmixed(f)
    ensures Unmixed(Coerce(f, roles, parse))
  {
    var g := Coerce(f, roles, parse);
    CoerceEffect(f, roles, parse);
    forall c | c in g.columns ensures NoText(Column(g, c)) || AllText(Column(g, c)) {
      var j := IndexOf(f.columns, c);
      if c in CoercedNames(roles, 4) {
        assert NoText(Column(g, c));
      } else {
        assert Column(g, c) == Column(f, c) by {
          forall i | 0 <= i < |g.rows| ensures Column(g, c)[i] == Column(f, c)[i] {
            assert Column(g, c)[i] == g.rows[i][j];
          }
        }
      }
    }
  }

  /** A table made of rows of an unmixed table is unmixed. */
  lemma SubRowsKeepUnmixed(f: Frame, g: Frame)
    requires Unmixed(f) && g.columns == f.columns
    requires forall k :: 0 <= k < |g.rows| ==> g.rows[k] in f.rows
    ensures Unmixed(g)
  {
    forall c | c in g.columns ensures NoText(Column(g, c)) || AllText(Column(g, c)) {
      if NoText(Column(f, c)) {
        NoTextInSubRows(f, g, c);
      } else {
        forall i | 0 <= i < |g.rows| ensures Column(g, c)[i].Text? {
          var m :| 0 <= m < |f.rows| && f.rows[m] == g.rows[i];
          assert Column(f, c)[m] == Column(g, c)[i];
        }
      }
    }
  }

  /** Assigning a column without text keeps a table unmixed. */
  lemma SetColumnKeepsUnmixed(f: Frame, name: string, values: seq<Cell>)
    requires WellFormed(f) && |values| == |f.rows| && Unmixed(f) && NoText(values)
    ensures Unmixed(SetColumn(f, name, values))
  {
    var g := SetColumn(f, name, values);
    forall c | c in g.columns ensures NoText(Column(g, c)) || AllText(Column(g, c)) {
      if c != name {
        assert c in f.columns;
      }
    }
  }

  /** The derived columns hold numbers and missing cells only. */
  lemma PriceDiffNoText(f: Frame, roles: Roles)
    requires roles.price.Some? && roles.price.value in f.columns && Resolved(roles.competitorPrice, f.columns)
    ensures NoText(PriceDiffValues(f, roles))
  {
  }

  lemma PricePctDiffNoText(f: Frame, roles: Roles)
    requires PRICE_DIFF in f.columns && Resolved(roles.competitorPrice, f.columns)
    ensures NoText(PricePctDiffValues(f, roles))
  {
  }

  lemma MarginNoText(f: Frame, roles: Roles)
    requires roles.price.Some? && roles.price.value in f.columns && Resolved(roles.cost, f.columns)
    ensures NoText(MarginValues(f, roles))
  {
  }

  lemma RevenueCalcNoText(f: Frame, roles: Roles)
    requires roles.price.Some? && roles.price.value in f.columns && Resolved(roles.units, f.columns)
    ensures NoText(RevenueCalcValues(f, roles))
  {
  }

  /** The derivation keeps a table unmixed. */
  lemma DeriveKeepsUnmixed(f: Frame, roles: Roles)
    requires WellFormed(f) && DerivableRoles(f, roles) && Unmixed(f)
    ensures Unmixed(Derive(f, roles))
  {
    PriceDiffNoText(f, roles);
    SetColumnKeepsUnmixed(f, PRICE_DIFF, PriceDiffValues(f, roles));
    var f1 := Stage1(f, roles);
    PricePctDiffNoText(f1, roles);
    SetColumnKeepsUnmixed(f1, PRICE_PCT_DIFF, PricePctDiffValues(f1, roles));
    var f2 := Stage2(f, roles);
    MarginNoText(f2, roles);
    SetColumnKeepsUnmixed(f2, MARGIN, MarginValues(f2, roles));
    var f3 := Stage3(f, roles);
    RevenueCalcNoText(f3, roles);
    SetColumnKeepsUnmixed(f3, REVENUE_CALC, RevenueCalcValues(f3, roles));
  }
}
