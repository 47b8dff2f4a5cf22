/**
 Column resolution: each logical role (price, competitor price, cost, units,
 part) is the first name of a fixed, ordered alias list that is an actual
 column of the table, or absent if none is.
 */
module Columns {
  import opened Wrappers

  const PRICE_ALIASES: seq<string> := ["Price", "price", "Unit_Price"]
  const COMPETITOR_PRICE_ALIASES: seq<string> := ["Competitor_Price", "competitor_price", "Comp_Price", "Competitor price"]
  const COST_ALIASES: seq<string> := ["Cost", "cost", "Unit_Cost"]
  const UNITS_ALIASES: seq<string> := ["Units_Sold", "Units", "Quantity", "units_sold"]
  const PART_ALIASES: seq<string> := ["Part_Name", "Part", "Part_ID", "PartName"]
  const REVENUE_ALIASES: seq<string> := ["Revenue", "revenue"]

  /** The names of the derived columns the pipeline adds. */
  const PRICE_DIFF := "Price_diff"
  const PRICE_PCT_DIFF := "Price_pct_diff"
  const MARGIN := "Margin"
  const REVENUE_CALC := "Revenue_calc"

  /**
   The first alias, in list order, that names a column; None exactly when
   no alias does.
   */
  function FirstPresent(aliases: seq<string>, columns: seq<string>): (r: Option<string>)
    ensures r.None? <==> forall i :: 0 <= i < |aliases| ==> aliases[i] !in columns
    ensures r.Some? ==> r.value in columns && r.value in aliases
    ensures forall i ::
              (0 <= i < |aliases| && aliases[i] in columns &&
               forall k :: 0 <= k < i ==> aliases[k] !in columns) ==> r == Some(aliases[i])
  {
    if aliases == [] then None
    else if aliases[0] in columns then Some(aliases[0])
    else FirstPresent(aliases[1..], columns)
  }

  /** When two aliases both name columns, the later one is never chosen over the earlier. */
  lemma {:induction false} EarlierAliasWins(aliases: seq<string>, columns: seq<string>, i: nat, j: nat)
    requires i < j < |aliases| && aliases[i] in columns && aliases[j] in columns
    requires forall a, b :: 0 <= a < b < |aliases| ==> aliases[a] != aliases[b]
    ensures FirstPresent(aliases, columns) != Some(aliases[j])
  {
    if aliases[0] !in columns {
      var rest := aliases[1..];
      assert rest[i - 1] == aliases[i] && rest[j - 1] == aliases[j];
      EarlierAliasWins(rest, columns, i - 1, j - 1);
    } else {
      assert aliases[0] != aliases[j];
    }
  }

  /** find_col: a search over the aliases that returns at the first one present. */
  method FindCol(aliases: seq<string>, columns: seq<string>) returns (r: Option<string>)
    ensures r == FirstPresent(aliases, columns)
  {
    for i := 0 to |aliases|
      invariant forall k :: 0 <= k < i ==> aliases[k] !in columns
    {
      if aliases[i] in columns {
        return Some(aliases[i]);
      }
    }
    return None;
  }

  /** The column map: the resolved column of each role. */
  datatype Roles = Roles(
    price: Option<string>,
    competitorPrice: Option<string>,
    cost: Option<string>,
    units: Option<string>,
    part: Option<string>)
  {
    /** The run cannot go on without a price and a part column. */
    predicate HasRequired() {
      price.Some? && part.Some?
    }

    /** The roles coerced to numbers, in the order they are coerced. */
    function NumericRoles(): seq<Option<string>> {
      [price, competitorPrice, cost, units]
    }
  }

  ghost predicate Resolved(o: Option<string>, columns: seq<string>) {
    o.Some? ==> o.value in columns
  }

  /** Resolution of all five roles against the table's columns. */
  function Resolve(columns: seq<string>): (m: Roles)
    ensures Resolved(m.price, columns) && Resolved(m.competitorPrice, columns)
    ensures Resolved(m.cost, columns) && Resolved(m.units, columns) && Resolved(m.part, columns)
    ensures m.price.None? <==> forall i :: 0 <= i < |PRICE_ALIASES| ==> PRICE_ALIASES[i] !in columns
    ensures m.part.None? <==> forall i :: 0 <= i < |PART_ALIASES| ==> PART_ALIASES[i] !in columns
  {
    Roles(
      FirstPresent(PRICE_ALIASES, columns),
      FirstPresent(COMPETITOR_PRICE_ALIASES, columns),
      FirstPresent(COST_ALIASES, columns),
      FirstPresent(UNITS_ALIASES, columns),
      FirstPresent(PART_ALIASES, columns))
  }

  /** A name that is none of the derived column names. */
  predicate NotDerived(name: string) {
    name != PRICE_DIFF && name != PRICE_PCT_DIFF && name != MARGIN && name != REVENUE_CALC
  }

  /** Two roles do not share a column. */
  predicate Apart(a: Option<string>, b: Option<string>) {
    a.Some? && b.Some? ==> a.value != b.value
  }

  /** A resolved name is non-empty and is not one of the derived columns. */
  predicate Plain(o: Option<string>) {
    o.Some? ==> o.value != "" && NotDerived(o.value)
  }

  /**
   The roles resolve to pairwise distinct columns, none of them empty and
   none of them a derived column's name: the coercion never touches the part
   column, and the derived columns never overwrite a role column.
   */
  lemma ResolvedRolesDistinct(columns: seq<string>)
    ensures var m := Resolve(columns);
      && Apart(m.price, m.competitorPrice) && Apart(m.price, m.cost) && Apart(m.price, m.units)
      && Apart(m.price, m.part) && Apart(m.competitorPrice, m.cost) && Apart(m.competitorPrice, m.units)
      && Apart(m.competitorPrice, m.part) && Apart(m.cost, m.units) && Apart(m.cost, m.part)
      && Apart(m.units, m.part)
      && Plain(m.price) && Plain(m.competitorPrice) && Plain(m.cost) && Plain(m.units) && Plain(m.part)
  {
    RolesPlain(columns);
    PriceApart(columns);
    OthersApart(columns);
  }

  /** Each resolved role is one of its own aliases, and plain. */
  lemma RolesPlain(columns: seq<string>)
    ensures var m := Resolve(columns);
      && (m.price.Some? ==> m.price.value in PRICE_ALIASES)
      && (m.competitorPrice.Some? ==> m.competitorPrice.value in COMPETITOR_PRICE_ALIASES)
      && (m.cost.Some? ==> m.cost.value in COST_ALIASES)
      && (m.units.Some? ==> m.units.value in UNITS_ALIASES)
      && (m.part.Some? ==> m.part.value in PART_ALIASES)
      && Plain(m.price) && Plain(m.competitorPrice) && Plain(m.cost) && Plain(m.units) && Plain(m.part)
  {
    RolePlain(PRICE_ALIASES, 0, columns);
    RolePlain(COMPETITOR_PRICE_ALIASES, 1, columns);
    RolePlain(COST_ALIASES, 2, columns);
    RolePlain(UNITS_ALIASES, 3, columns);
    RolePlain(PART_ALIASES, 4, columns);
  }

  lemma RolePlain(aliases: seq<string>, r: nat, columns: seq<string>)
    requires r < 5 && aliases == AliasLists()[r]
    ensures var o := FirstPresent(aliases, columns); o.Some? ==> o.value in aliases && Plain(o)
  {
    AliasesPlain(r);
    PlainAliases(aliases, FirstPresent(aliases, columns), columns);
  }

  lemma PriceApart(columns: seq<string>)
    ensures var m := Resolve(columns);
      && Apart(m.price, m.competitorPrice) && Apart(m.price, m.cost) && Apart(m.price, m.units)
      && Apart(m.price, m.part)
  {
    RolesApart(0, 1, columns);
    RolesApart(0, 2, columns);
    RolesApart(0, 3, columns);
    RolesApart(0, 4, columns);
  }

  lemma OthersApart(columns: seq<string>)
    ensures var m := Resolve(columns);
      && Apart(m.competitorPrice, m.cost) && Apart(m.competitorPrice, m.units)
      && Apart(m.competitorPrice, m.part) && Apart(m.cost, m.units) && Apart(m.cost, m.part)
      && Apart(m.units, m.part)
  {
    RolesApart(1, 2, columns);
    RolesApart(1, 3, columns);
    RolesApart(1, 4, columns);
    RolesApart(2, 3, columns);
    RolesApart(2, 4, columns);
    RolesApart(3, 4, columns);
  }

  /** Two different roles never resolve to the same column. */
  lemma RolesApart(r: nat, s: nat, columns: seq<string>)
    requires r < s < 5
    ensures Apart(FirstPresent(AliasLists()[r], columns), FirstPresent(AliasLists()[s], columns))
  {
    AliasesDisjoint(r, s);
  }

  /** The alias lists of the five roles, in the order of the Roles fields. */
  function AliasLists(): seq<seq<string>> {
    [PRICE_ALIASES, COMPETITOR_PRICE_ALIASES, COST_ALIASES, UNITS_ALIASES, PART_ALIASES]
  }

  /** No alias is empty or a derived column's name. */
  lemma AliasesPlain(r: nat)
    requires r < 5
    ensures forall i :: 0 <= i < |AliasLists()[r]| ==> AliasLists()[r][i] != "" && NotDerived(AliasLists()[r][i])
  {
  }

  /** No two roles share an alias. */
  lemma AliasesDisjoint(r: nat, s: nat)
    requires r < s < 5
    ensures forall x :: x in AliasLists()[r] ==> x !in AliasLists()[s]
  {
  }

  /** A resolved name is one of its list's aliases, so it is plain when they all are. */
  lemma PlainAliases(aliases: seq<string>, o: Option<string>, columns: seq<string>)
    requires o == FirstPresent(aliases, columns)
    requires forall i :: 0 <= i < |aliases| ==> aliases[i] != "" && NotDerived(aliases[i])
    ensures o.Some? ==> o.value in aliases && Plain(o)
  {
  }
}
