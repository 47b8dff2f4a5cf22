# Automotive pricing pipeline in Dafny

This project models the core of the pricing script `automotive-pricing-intelligence.py`. The script reads a table of automotive parts and cleans it:

- it strips the text columns;
- it resolves which columns hold price, competitor price, cost, units sold and part name, each by an ordered list of aliases;
- it coerces the four numeric roles to numbers;
- it drops exact duplicate rows;
- it stops when no price or no part column exists;
- it drops rows missing a price or a part;
- it adds `Price_diff`, `Price_pct_diff`, `Margin` and `Revenue_calc`.

From the cleaned table it then takes three extracts:

- the 20 rows with the largest revenue;
- the rows priced more than 10% above the competitor;
- the rows with a low margin (at most the 25% quantile) and high sales (at least the 75% quantile).

The model is made of these parts:

- A table (`Frames.Frame`) is a header of column names plus rows of cells. A cell is `Missing`, `Num(real)` or `Text(string)`. Floats are modelled as exact reals.
- `Cleaning.Clean` states the whole cleaning stage as one function of the input table. It returns `Err(MissingRequiredColumns)` where the script calls `sys.exit(1)`.
- The script mutates `df` column by column. The class `Cleaning.DataFrame` does the same. `Cleaning.CleanTable` drives it with `Columns.FindCol` in the same order as the script, and it is proved to compute `Clean`.
- The extracts are pure functions (module `Extracts`). They are combined in `Pipeline.Analyse`, and `Pipeline.Run` is proved to compute it.
- Three library behaviours are parameters, because their exact rules are outside the core:
  - `parse` stands for how `pd.to_numeric(errors='coerce')` reads a string;
  - `render` stands for the string `astype(str)` gives a number;
  - `quantile` stands for `Series.quantile`, with `None` for a NaN result.

Modules: `Wrappers` (Option, Result), `Cells` (cells, trimming, coercion, arithmetic, comparison and sort order), `Seqs` (filtering, duplicate removal, head), `Sorting` (descending sort), `Columns` (role resolution), `Frames` (table operations and derived columns), `Cleaning`, `Extracts`, `Pipeline`.

## Model

| member | source | states |
|---|---|---|
| Columns.FirstPresent | automotive-pricing-intelligence.py:35-39 | the result is None exactly when no alias names a column; otherwise it is a column and an alias, and it is the first alias in list order that names a column |
| Columns.FindCol | automotive-pricing-intelligence.py:35-39 | the search loop with early return computes FirstPresent |
| Columns.EarlierAliasWins | automotive-pricing-intelligence.py:35-45 | when two distinct aliases both name columns, the later one is never returned |
| Columns.Resolve | automotive-pricing-intelligence.py:41-45 | every resolved role names a column; price (and part) is unresolved exactly when none of its aliases is a column |
| Columns.ResolvedRolesDistinct | automotive-pricing-intelligence.py:41-45 | the five resolved roles are pairwise distinct and none of them is empty or a derived column's name |
| Cells.StartFrom | automotive-pricing-intelligence.py:29 | the first non-whitespace position from lo on: everything skipped is whitespace and the character found is not |
| Cells.EndBefore | automotive-pricing-intelligence.py:29 | the end of the last non-whitespace character before hi: everything cut is whitespace and the last character kept is not |
| Cells.TrimIsSlice | automotive-pricing-intelligence.py:29 | str.strip removes only leading and trailing whitespace: the result is a slice s[a..b] of the input, everything outside is whitespace, and the slice neither starts nor ends with whitespace |
| Cells.TrimIdempotent | automotive-pricing-intelligence.py:29 | stripping a stripped string changes nothing |
| Cells.StripCell | automotive-pricing-intelligence.py:29 | a cell of a text column becomes text: the stripped string form of the cell ("nan" for missing); a text cell becomes its stripped text |
| Cells.CoerceCell | automotive-pricing-intelligence.py:55 | the result is never text; numbers are kept and missing stays missing; text becomes its parsed number, or missing when it does not parse |
| Cells.Sub | automotive-pricing-intelligence.py:77 | the difference is present exactly when both operands are, and then it adds back to the minuend |
| Cells.Mul | automotive-pricing-intelligence.py:80 | the product is present exactly when both operands are, and then it is their product |
| Cells.Div | automotive-pricing-intelligence.py:78 | the quotient is present exactly when both operands are and the divisor is non-zero, and then quotient times divisor gives the dividend |
| Cells.StrLeTotal | automotive-pricing-intelligence.py:93 | string order, used when a revenue column holds text, is total |
| Cells.StrLeTrans | automotive-pricing-intelligence.py:93 | string order is transitive |
| Cells.KeyLeTotal | automotive-pricing-intelligence.py:93 | the sort order of cells is total |
| Cells.KeyLeTrans | automotive-pricing-intelligence.py:93 | the sort order of cells is transitive |
| Cells.KeyLeNumbers | automotive-pricing-intelligence.py:93 | between numbers the sort order is the numeric order, and missing sorts below every present value (NaN last in a descending sort) |
| Frames.IndexOf | automotive-pricing-intelligence.py:29 | the position found holds the name and is its first occurrence |
| Frames.Column | automotive-pricing-intelligence.py:29 | df[c] has one cell per row, the row's cell at that column |
| Frames.MapColumnCells | automotive-pricing-intelligence.py:29 | replacing one column through a cell function changes that column's cells and only them |
| Frames.TextColumnsFromMembers | automotive-pricing-intelligence.py:26 | the positions listed from j on are exactly the text columns at or after j |
| Frames.TextColumnListMembers | automotive-pricing-intelligence.py:26 | select_dtypes(include=['object']) lists exactly the columns holding some text |
| Frames.StripColumnsStep | automotive-pricing-intelligence.py:27-31 | stripping one more column, as the loop does, is one MapColumn on the table stripped so far |
| Frames.StripTextEffect | automotive-pricing-intelligence.py:26-31 | after stripping, every cell of a text column is the stripped string form of the old cell; every other column is unchanged |
| Frames.StripTextIdempotent | automotive-pricing-intelligence.py:26-31 | stripping a stripped table changes nothing |
| Frames.StripTextKeepsTextColumns | automotive-pricing-intelligence.py:26-31 | stripping keeps the same columns text |
| Frames.TextColumnsFromSame | automotive-pricing-intelligence.py:26 | two tables whose columns are text in the same places list the same text columns |
| Frames.CoerceColumnsStep | automotive-pricing-intelligence.py:52-55 | coercing one more column, as the loop does, is one MapColumn on the table coerced so far |
| Frames.CoercedNamesStep | automotive-pricing-intelligence.py:52-55 | each turn of the loop over the four numeric roles adds the role's column to the coerced names when the role is resolved, and adds nothing otherwise |
| Frames.CoerceCellIdempotent | automotive-pricing-intelligence.py:55 | coercing a coerced cell changes nothing |
| Frames.CoerceEffect | automotive-pricing-intelligence.py:52-55 | every cell of a coerced column becomes CoerceCell of the old cell, so it holds no text and keeps its numbers; every other column is unchanged |
| Frames.CoercedRoles | automotive-pricing-intelligence.py:52-54 | every numeric role that names a non-empty column is coerced |
| Frames.CoercedColumnNoText | automotive-pricing-intelligence.py:55 | a coerced column holds no text |
| Frames.NoTextInSubRows | automotive-pricing-intelligence.py:59-68 | a column without text stays without text in any table made of the same rows |
| Frames.UnmixedNoNumberBesideText | automotive-pricing-intelligence.py:29 | in a table whose columns are each text-free or all text, no column holds a number and a text cell |
| Frames.StripTextUnmixed | automotive-pricing-intelligence.py:26-31 | after the strip every column holds either no text or only text, NaN of a text column included |
| Frames.CoerceKeepsUnmixed | automotive-pricing-intelligence.py:52-55 | to_numeric turns a column text-free or leaves it as it was, so columns stay unmixed |
| Frames.SubRowsKeepUnmixed | automotive-pricing-intelligence.py:59-68 | a table made of rows of an unmixed table, as drop_duplicates and dropna make, is unmixed |
| Frames.StripTextShape | automotive-pricing-intelligence.py:27-31 | stripping keeps the header, the row count and well-formedness |
| Frames.CoerceShape | automotive-pricing-intelligence.py:52-55 | coercion keeps the header, the row count and well-formedness |
| Frames.Missings | automotive-pricing-intelligence.py:77-80 | pd.NA assigned to a column gives a missing cell in every row |
| Frames.AddName | automotive-pricing-intelligence.py:77-80 | assigning df[name] makes name a column |
| Frames.AddNameExtends | automotive-pricing-intelligence.py:77-80 | assigning a column keeps the old header as a prefix and adds nothing but that name |
| Frames.DerivedHeaderHas | automotive-pricing-intelligence.py:77-80 | after the four assignments all four derived columns exist and every original column is kept |
| Frames.DerivedHeaderExtends | automotive-pricing-intelligence.py:77-80 | the old header is a prefix of the new one, and every new name is a derived name |
| Frames.SetColumn | automotive-pricing-intelligence.py:77-80 | df[name] = values: the column of that name reads values; every other column is unchanged; the header gains name only if it was missing |
| Frames.ReplaceColumn | automotive-pricing-intelligence.py:77-80 | assigning to an existing column keeps the header, makes that column read the new values and leaves every other column unchanged |
| Frames.AppendColumn | automotive-pricing-intelligence.py:77-80 | assigning to a new column appends its name to the header, makes it read the new values and leaves every existing column unchanged |
| Frames.IndexOfPrefix | automotive-pricing-intelligence.py:77-80 | appending columns does not move an existing column |
| Frames.IndexOfLast | automotive-pricing-intelligence.py:77-80 | an appended column is the last one |
| Frames.PriceDiffValues | automotive-pricing-intelligence.py:77 | one Price_diff value per row |
| Frames.PricePctDiffValues | automotive-pricing-intelligence.py:78 | one Price_pct_diff value per row |
| Frames.MarginValues | automotive-pricing-intelligence.py:79 | one Margin value per row |
| Frames.RevenueCalcValues | automotive-pricing-intelligence.py:80 | one Revenue_calc value per row |
| Frames.SetColumnKeepsRoles | automotive-pricing-intelligence.py:77-80 | assigning a column keeps every role a column |
| Frames.Derive | automotive-pricing-intelligence.py:77-80 | the four assignments keep the table well formed and the row count, and give the derived header |
| Frames.Stage1 | automotive-pricing-intelligence.py:77 | the table after the Price_diff assignment is well formed and still holds the role columns |
| Frames.Stage2 | automotive-pricing-intelligence.py:77-78 | the table after the Price_pct_diff assignment is well formed and still holds the role columns |
| Frames.Stage3 | automotive-pricing-intelligence.py:77-79 | the table after the Margin assignment is well formed and still holds the role columns |
| Frames.PriceDiffNoText | automotive-pricing-intelligence.py:77 | Price_diff holds numbers and missing cells only |
| Frames.PricePctDiffNoText | automotive-pricing-intelligence.py:78 | Price_pct_diff holds numbers and missing cells only |
| Frames.MarginNoText | automotive-pricing-intelligence.py:79 | Margin holds numbers and missing cells only |
| Frames.RevenueCalcNoText | automotive-pricing-intelligence.py:80 | Revenue_calc holds numbers and missing cells only |
| Frames.SetColumnKeepsUnmixed | automotive-pricing-intelligence.py:77-80 | assigning a column without text keeps every column text-free or all text |
| Frames.DeriveKeepsUnmixed | automotive-pricing-intelligence.py:77-80 | the four assignments keep every column text-free or all text |
| Frames.DeriveEffect | automotive-pricing-intelligence.py:77-80 | the derived table keeps the old header as a prefix, its rows and every column not carrying a derived name, and has the four derived columns |
| Frames.StagesKeepColumn | automotive-pricing-intelligence.py:77-80 | a column not carrying a derived name reads the same after each assignment |
| Frames.DerivedColumnsAre | automotive-pricing-intelligence.py:77-80 | each derived column holds the values computed from the table as it stood at its assignment |
| Frames.DerivePriceDiff | automotive-pricing-intelligence.py:77-78 | without a competitor column both differences are missing in every row; with one, each row's Price_diff is price minus competitor price and Price_pct_diff is Price_diff / competitor price * 100 |
| Frames.DeriveMargin | automotive-pricing-intelligence.py:79 | without a cost column Margin is missing in every row; with one it is price minus cost in each row |
| Frames.DeriveRevenue | automotive-pricing-intelligence.py:80 | without a units column Revenue_calc is missing in every row; with one it is price times units in each row |
| Frames.DeriveMarginPresent | automotive-pricing-intelligence.py:79 | with a cost column, Margin is price minus cost in each row |
| Frames.DeriveRevenuePresent | automotive-pricing-intelligence.py:80 | with a units column, Revenue_calc is price times units in each row |
| Frames.PriceDiffExample | automotive-pricing-intelligence.py:77-78 | a row priced 120 against a competitor's 100 gets Price_diff 20 and Price_pct_diff 20 |
| Frames.MarginRevenueExample | automotive-pricing-intelligence.py:79-80 | a row with price 50, cost 30 and 4 units gets Margin 20 and Revenue_calc 200 |
| Frames.SetNewColumnNoDup | automotive-pricing-intelligence.py:77-80 | appending a new column to distinct rows keeps them distinct |
| Frames.DeriveNoDup | automotive-pricing-intelligence.py:59-80 | when no input column carries a derived name, distinct rows stay distinct through the derivation |
| Frames.Stage1NoDup | automotive-pricing-intelligence.py:77 | the Price_diff assignment keeps distinct rows distinct when no column carries a derived name |
| Frames.Stage2NoDup | automotive-pricing-intelligence.py:78 | the Price_pct_diff assignment keeps distinct rows distinct |
| Frames.Stage3NoDup | automotive-pricing-intelligence.py:79 | the Margin assignment keeps distinct rows distinct |
| Frames.DeriveMetrics | automotive-pricing-intelligence.py:77-80 | the derived table's four metric columns satisfy their formulas in terms of the table's own role columns, row by row, with missing throughout where a role is unresolved |
| Frames.DeriveKeepsRoles | automotive-pricing-intelligence.py:77-80 | the role columns read the same before and after the derivation |
| Frames.SetColumnAgree | automotive-pricing-intelligence.py:77-80 | assigning values that agree on two rows extends the rows' agreement to that column |
| Frames.AgreeAt | automotive-pricing-intelligence.py:77-80 | rows that agree outside a set of names agree on any column outside it |
| Frames.AgreeEverywhere | automotive-pricing-intelligence.py:77-80 | rows that agree on every column are equal |
| Frames.Stage1Agree | automotive-pricing-intelligence.py:77 | assigning Price_diff to rows that agree outside the derived names makes them agree on Price_diff too |
| Frames.Stage2Agree | automotive-pricing-intelligence.py:78 | assigning Price_pct_diff keeps that agreement and extends it to Price_pct_diff |
| Frames.Stage3Agree | automotive-pricing-intelligence.py:79 | assigning Margin keeps that agreement and extends it to Margin |
| Frames.Stage4Agree | automotive-pricing-intelligence.py:80 | assigning Revenue_calc makes the rows agree on every column |
| Frames.DeriveRowwise | automotive-pricing-intelligence.py:77-80 | the derivation works row by row: rows that agree outside the derived names are equal afterwards, so an input column that carries a derived name is overwritten |
| Seqs.Filter | automotive-pricing-intelligence.py:68 | the kept rows are rows of the input satisfying the condition, and every input row satisfying it is kept |
| Seqs.FilterIndices | automotive-pricing-intelligence.py:68 | the positions kept are increasing and are exactly those satisfying the condition |
| Seqs.FilterPicks | automotive-pricing-intelligence.py:68 | the filtered rows are the input read at those positions, in order |
| Seqs.FilterMultiset | automotive-pricing-intelligence.py:68 | a row occurs in the filtered rows as often as in the input when it satisfies the condition, and never otherwise |
| Seqs.FilterSubMultiset | automotive-pricing-intelligence.py:68 | filtering only removes rows |
| Seqs.FilterNoDup | automotive-pricing-intelligence.py:68 | filtering distinct rows leaves them distinct |
| Seqs.Dedup | automotive-pricing-intelligence.py:59 | no kept row is repeated, every kept row is an input row, every input row is kept, and the result is no longer than the input |
| Seqs.FirstIndices | automotive-pricing-intelligence.py:59 | the positions holding the first occurrence of their value, in increasing order |
| Seqs.DedupPicksFirst | automotive-pricing-intelligence.py:59 | drop_duplicates keeps exactly the first occurrences, in their order |
| Seqs.DedupOfDistinct | automotive-pricing-intelligence.py:59 | rows without duplicates are left as they are |
| Seqs.DedupIdempotent | automotive-pricing-intelligence.py:59 | removing duplicates twice is removing them once |
| Seqs.Take | automotive-pricing-intelligence.py:93 | head(n) has min(n, length) rows, the first ones |
| Sorting.Insert | automotive-pricing-intelligence.py:93 | inserting a row into rows sorted in descending order keeps them sorted and adds exactly that row |
| Sorting.InsertFront | automotive-pricing-intelligence.py:93 | a row at least as large as the first stays sorted in front |
| Sorting.InsertBehind | automotive-pricing-intelligence.py:93 | the first row stays in front of a smaller inserted row |
| Sorting.SortDesc | automotive-pricing-intelligence.py:93 | sort_values(ascending=False): the result is non-increasing in the key and a permutation of the input |
| Sorting.PrefixSorted | automotive-pricing-intelligence.py:93 | the head of a sorted table is sorted |
| Sorting.PrefixHoldsLargest | automotive-pricing-intelligence.py:93 | no row left out of the head of a sorted table has a larger key than a row in the head |
| Cleaning.Keyed | automotive-pricing-intelligence.py:59-68 | after the missing-key filter the table is well formed, keeps the input header and its roles are plain columns |
| Cleaning.Clean | automotive-pricing-intelligence.py:26-80 | the stage fails exactly when no price alias or no part alias names a column; otherwise the roles are the resolved ones, the table is well formed, keeps every input column and has the four derived columns |
| Cleaning.CleanResolved | automotive-pricing-intelligence.py:64-80 | once both key roles are resolved, the cleaned table is well formed, keeps every input column and has the four derived columns |
| Cleaning.DropDuplicatesEffect | automotive-pricing-intelligence.py:58-61 | the kept rows are distinct, are the first occurrences in order, every input row is among them, and dropping again changes nothing |
| Cleaning.DropMissingKeysEffect | automotive-pricing-intelligence.py:68 | every kept row has a price and a part, every input row with both is kept, and the kept rows are the input's at increasing positions |
| Cleaning.SelectionShape | automotive-pricing-intelligence.py:59-68 | both row selections keep the header, shrink the table and take their rows from it |
| Cleaning.PreparedEffect | automotive-pricing-intelligence.py:26-61 | the table at the fatal check is well formed with the input header, and its roles are plain columns |
| Cleaning.PreparedPriceIsNumber | automotive-pricing-intelligence.py:52-59 | after coercion no price cell is text |
| Cleaning.CleanKeys | automotive-pricing-intelligence.py:64-68 | in the cleaned table both key columns exist, every price is a number and no part is missing |
| Cleaning.PreparedUnmixed | automotive-pricing-intelligence.py:26-61 | after strip, to_numeric and drop_duplicates every column holds either no text or only text |
| Cleaning.KeyedUnmixed | automotive-pricing-intelligence.py:68 | dropna keeps that property |
| Cleaning.CleanUnmixed | automotive-pricing-intelligence.py:26-80 | no column of the cleaned table holds both a number and a text cell, so the extracts never sort on a key mixing them |
| Cleaning.CleanMetrics | automotive-pricing-intelligence.py:77-80 | the cleaned table's derived columns satisfy their formulas row by row |
| Cleaning.CleanNoDup | automotive-pricing-intelligence.py:59-80 | when no input column carries a derived name, the cleaned table has no two equal rows |
| Cleaning.CleanRowCount | automotive-pricing-intelligence.py:58-68 | the cleaned table never has more rows than the table after drop_duplicates, and the duplicate count is before minus after |
| Cleaning.DataFrame.StripText | automotive-pricing-intelligence.py:26-31 | the loop over the text columns leaves the table as Frames.StripText of the old table |
| Cleaning.DataFrame.StripColumn | automotive-pricing-intelligence.py:29 | one column replaced by its stripped string form |
| Cleaning.DataFrame.Coerce | automotive-pricing-intelligence.py:52-55 | the loop over the four numeric roles leaves the table as Frames.Coerce of the old table |
| Cleaning.DataFrame.DropDuplicates | automotive-pricing-intelligence.py:58-60 | the table becomes its deduplication, and the count returned is the number of rows removed |
| Cleaning.DataFrame.DropMissingKeys | automotive-pricing-intelligence.py:68 | the table loses exactly its rows without a price or a part |
| Cleaning.DataFrame.SetColumn | automotive-pricing-intelligence.py:77-80 | the table becomes Frames.SetColumn of the old table |
| Cleaning.DataFrame.AddDerived | automotive-pricing-intelligence.py:72-80 | the four assignments in turn leave the table as Frames.Derive of the old table |
| Cleaning.DataFrame.constructor | automotive-pricing-intelligence.py:20 | the table holds the loaded frame |
| Cleaning.CleanTable | automotive-pricing-intelligence.py:26-80 | the in-place cleaning with find_col computes Clean, including the error case |
| Cleaning.PrepareTable | automotive-pricing-intelligence.py:26-61 | stripping, find_col for the five roles, coercion and drop_duplicates on the mutable table leave it as Prepared of the input, with the resolved roles and the number of rows removed |
| Extracts.RevenueKey | automotive-pricing-intelligence.py:90-92 | the top-revenue key is Revenue if it is a column, else revenue if it is one, else Revenue_calc |
| Extracts.RevenueKeyIsColumn | automotive-pricing-intelligence.py:90-92 | the key is a column whenever Revenue_calc is one |
| Extracts.TopRevenueSpec | automotive-pricing-intelligence.py:93 | the top-revenue extract has min(20, n) rows, takes its rows from the table, is non-increasing in the key, and no row left out has a larger key than a row kept |
| Extracts.OverpricedSpec | automotive-pricing-intelligence.py:99 | the overpriced extract holds exactly the rows whose Price_pct_diff is present and above 10, each as often as the table does, in non-increasing order of it |
| Extracts.LowMarginHighSalesSpec | automotive-pricing-intelligence.py:108-110 | the extract holds exactly the rows with Margin at most q25 and units at least q75, each as often as the table does, in non-increasing order of units |
| Pipeline.Analyse | automotive-pricing-intelligence.py:26-114 | the run fails exactly when the cleaning fails, and otherwise reports the cleaned table |
| Pipeline.AnalyseFails | automotive-pricing-intelligence.py:64-66 | the run stops with an error exactly when price or part is unresolved; otherwise both resolved names are columns of the input and of the cleaned table |
| Pipeline.AnalyseOptionalExtracts | automotive-pricing-intelligence.py:98-114 | the overpriced extract exists exactly when a competitor price alias names a column; the low-margin one exactly when a cost alias and a units alias do |
| Pipeline.ExtractsFromCleaned | automotive-pricing-intelligence.py:90-110 | the extracts leave the cleaned table as it is and take their rows from it; the top-revenue one has min(20, n) rows |
| Pipeline.LowMarginThresholds | automotive-pricing-intelligence.py:106-110 | the low-margin extract holds exactly the rows of the whole cleaned table meeting the two thresholds computed over that table |
| Pipeline.OverpricedFromCleaned | automotive-pricing-intelligence.py:98-99 | the overpriced extract holds exactly the rows of the cleaned table whose Price_pct_diff is above 10 |
| Pipeline.Run | automotive-pricing-intelligence.py:26-114 | the script's run, with the in-place cleaning and find_col for the revenue column, computes Analyse |

## Left out

- File and display I/O is not modelled: the existence check and exit at lines 13-17, `read_excel` at line 20, every `to_csv`, every `print`, and the matplotlib charts at lines 116-138. The input table is a parameter, and the written tables are the fields of `Pipeline.Report`.
- The closing manifest loop and the block nested inside it (lines 140-171) are not modelled. They use `Brand`, `Region`, `Gross_Margin_%` and `Profit`, which the script never establishes, and they are outside the pricing logic.
- `Series.quantile` (lines 108-109) is a parameter. It is applied to the cleaned Margin and units columns, as in the script.
- `pd.to_numeric(errors='coerce')` (line 55) is a parameter, `parse`, from strings to optional numbers.
- How pandas prints a float as a string (`astype(str)` at line 29) is a parameter, `render`. A missing cell becomes "nan", as in pandas.
- Cells.Div: a zero competitor price gives a missing Price_pct_diff, where the floats give inf or NaN. An inf above 10 would be kept by the overpriced filter, and the model drops it.
- Floating-point rounding is not modelled: numbers are exact reals.
- Sorting.SortDesc: the order of rows with equal keys is not promised, because pandas' default quicksort is not stable. Any order of ties is allowed, so the insertion sort stands for one admissible result.
- Cells.KeyLe ranks text above numbers. pandas raises a TypeError when a sort key mixes the two. This rank is never used on a cleaned table: `Cleaning.CleanUnmixed` shows that no cleaned column holds both a number and text. The strip turns every cell of a text column into text, NaN included, and no later step brings text into a column without it.
- pandas dtypes other than numbers and text (dates, booleans) are not modelled. A column counts as text (`object` dtype) when it holds some text cell.
- The `try`/`except` around the strip (lines 28-31) is not modelled, because `astype(str).str.strip()` cannot fail on the modelled cells.
- The fallback at lines 91-92 is modelled exactly, but it never changes the key: `find_col` only returns names that are columns, and `Revenue_calc` always exists by then.
- The script keeps the DataFrame index; the model keeps row order but does not model index labels.
- Assigning a derived column overwrites an input column of the same name, as pandas does. `Frames.DeriveRowwise` shows this can make distinct rows equal, so `Cleaning.CleanNoDup` requires that no input column carries a derived name.
