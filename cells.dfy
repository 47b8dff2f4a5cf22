/**
 Table cells and the per-cell operations of the pricing pipeline: whitespace
 stripping of text cells, numeric coercion, the arithmetic of the derived
 metrics, the comparisons of the extract filters, and the order used by the
 descending sorts.
 */
module Cells {
  import opened Wrappers

  /** A spreadsheet cell: missing (NaN), a number, or text. */
  datatype Cell = Missing | Num(v: real) | Text(s: string)

  type Row = seq<Cell>

  /** The cell of a row in column j; a row too short for j reads as missing. */
  function At(row: Row, j: nat): (c: Cell)
    ensures j < |row| ==> c == row[j]
  {
    if j < |row| then row[j] else Missing
  }

  // ---------------------------------------------------------------------
  // Whitespace stripping (Python's str.strip with no argument)
  // ---------------------------------------------------------------------

  /** The characters Python's str.isspace accepts. */
  predicate IsSpace(c: char) {
    c == ' ' || ('\t' <= c <= '\r') || ('\U{1c}' <= c <= '\U{1f}') ||
    c == '\U{85}' || c == '\U{a0}' || c == '\U{1680}' ||
    ('\U{2000}' <= c <= '\U{200a}') || c == '\U{2028}' || c == '\U{2029}' ||
    c == '\U{202f}' || c == '\U{205f}' || c == '\U{3000}'
  }

  /** Every character of s[lo..hi] is whitespace. */
  ghost predicate AllSpace(s: string, lo: nat, hi: nat) {
    forall k :: lo <= k < hi && k < |s| ==> IsSpace(s[k])
  }

  /** The first position at or after lo that is not whitespace (|s| if none). */
  function StartFrom(s: string, lo: nat): (a: nat)
    requires lo <= |s|
    decreases |s| - lo
    ensures lo <= a <= |s| && AllSpace(s, lo, a)
    ensures a < |s| ==> !IsSpace(s[a])
  {
    if lo < |s| && IsSpace(s[lo]) then StartFrom(s, lo + 1) else lo
  }

  /** The position after the last non-whitespace character of s[lo..hi] (lo if none). */
  function EndBefore(s: string, lo: nat, hi: nat): (b: nat)
    requires lo <= hi <= |s|
    decreases hi
    ensures lo <= b <= hi && AllSpace(s, b, hi)
    ensures lo < b ==> !IsSpace(s[b - 1])
  {
    if lo < hi && IsSpace(s[hi - 1]) then EndBefore(s, lo, hi - 1) else hi
  }

  /** Python's str.strip(): leading and trailing whitespace removed. */
  function Trim(s: string): string {
    var a := StartFrom(s, 0);
    s[a..EndBefore(s, a, |s|)]
  }

  /**
   Trim cuts whitespace off both ends and nothing else: it is s[a..b], all
   of s outside a..b is whitespace, and s[a..b] neither starts nor ends
   with whitespace.
   */
  lemma TrimIsSlice(s: string) returns (a: nat, b: nat)
    ensures a <= b <= |s| && Trim(s) == s[a..b] && AllSpace(s, 0, a) && AllSpace(s, b, |s|)
    ensures a < b ==> !IsSpace(s[a]) && !IsSpace(s[b - 1])
  {
    a := StartFrom(s, 0);
    b := EndBefore(s, a, |s|);
  }

  /** Stripping twice is stripping once. */
  lemma TrimIdempotent(s: string)
    ensures Trim(Trim(s)) == Trim(s)
  {
    var a, b := TrimIsSlice(s);
    var r := s[a..b];
    assert r == [] || (r[0] == s[a] && r[|r| - 1] == s[b - 1]);
    assert StartFrom(r, 0) == 0;
    assert EndBefore(r, 0, |r|) == |r|;
    assert r[0..|r|] == r;
  }

  // ---------------------------------------------------------------------
  // Text columns: astype(str) followed by str.strip()
  // ---------------------------------------------------------------------

  /**
   The string pandas' astype(str) gives a cell of a text column: missing
   becomes "nan", a number becomes its rendering (a parameter here).
   */
  function Show(c: Cell, render: real -> string): string {
    match c
    case Missing => "nan"
    case Num(v) => render(v)
    case Text(s) => s
  }

  /** A cell of a text column after astype(str).str.strip(): always text, always stripped. */
  function StripCell(c: Cell, render: real -> string): (r: Cell)
    ensures r.Text? && r.s == Trim(Show(c, render))
    ensures c.Text? ==> r == Text(Trim(c.s))
  {
    Text(Trim(Show(c, render)))
  }

  // ---------------------------------------------------------------------
  // Numeric coercion: pd.to_numeric(errors='coerce')
  // ---------------------------------------------------------------------

  /**
   Numbers and missing cells are kept, text is parsed, and text that does
   not parse becomes missing; the result is never text.
   */
  function CoerceCell(c: Cell, parse: string -> Option<real>): (r: Cell)
    ensures !r.Text?
    ensures c.Num? ==> r == c
    ensures c.Missing? ==> r.Missing?
    ensures c.Text? ==> (r.Missing? <==> parse(c.s).None?)
    ensures c.Text? && parse(c.s).Some? ==> r == Num(parse(c.s).value)
  {
    match c
    case Missing => Missing
    case Num(_) => c
    case Text(s) => match parse(s) { case Some(v) => Num(v) case None => Missing }
  }

  // ---------------------------------------------------------------------
  // Arithmetic of the derived metrics: a missing operand gives missing
  // ---------------------------------------------------------------------

  function Sub(a: Cell, b: Cell): (r: Cell)
    ensures r.Num? <==> a.Num? && b.Num?
    ensures r.Num? ==> r.v + b.v == a.v
  {
    if a.Num? && b.Num? then Num(a.v - b.v) else Missing
  }

  function Mul(a: Cell, b: Cell): (r: Cell)
    ensures r.Num? <==> a.Num? && b.Num?
    ensures r.Num? ==> r.v == a.v * b.v
  {
    if a.Num? && b.Num? then Num(a.v * b.v) else Missing
  }

  /** Division; a zero divisor gives missing where the floats would give inf or NaN. */
  function Div(a: Cell, b: Cell): (r: Cell)
    ensures r.Num? <==> a.Num? && b.Num? && b.v != 0.0
    ensures r.Num? ==> r.v * b.v == a.v
  {
    if a.Num? && b.Num? && b.v != 0.0 then Num(a.v / b.v) else Missing
  }

  // ---------------------------------------------------------------------
  // Comparisons of the extract filters: a missing cell compares false
  // ---------------------------------------------------------------------

  predicate GreaterThan(c: Cell, t: real) {
    c.Num? && c.v > t
  }

  /** c <= q, false when either side is NaN. */
  predicate AtMost(c: Cell, q: Option<real>) {
    c.Num? && q.Some? && c.v <= q.value
  }

  /** c >= q, false when either side is NaN. */
  predicate AtLeast(c: Cell, q: Option<real>) {
    c.Num? && q.Some? && c.v >= q.value
  }

  // ---------------------------------------------------------------------
  // Sort order: numbers by value, text by code points, missing lowest
  // ---------------------------------------------------------------------

  /** Python's string order: lexicographic by code point. */
  predicate StrLe(a: string, b: string) {
    a == [] || (b != [] && (a[0] < b[0] || (a[0] == b[0] && StrLe(a[1..], b[1..]))))
  }

  lemma {:induction false} StrLeTotal(a: string, b: string)
    ensures StrLe(a, b) || StrLe(b, a)
  {
    if a != [] && b != [] && a[0] == b[0] {
      StrLeTotal(a[1..], b[1..]);
    }
  }

  lemma {:induction false} StrLeTrans(a: string, b: string, c: string)
    requires StrLe(a, b) && StrLe(b, c)
    ensures StrLe(a, c)
  {
    if a != [] && b != [] && c != [] && a[0] == b[0] == c[0] {
      StrLeTrans(a[1..], b[1..], c[1..]);
    }
  }

  function Rank(c: Cell): nat {
    match c
    case Missing => 0
    case Num(_) => 1
    case Text(_) => 2
  }

  /**
   The order of a descending sort_values with missing values last: missing
   sorts below everything. A column never mixes numbers and text once it is
   cleaned (Cleaning.CleanUnmixed), so the relative rank of numbers and text
   is never used.
   */
  predicate KeyLe(a: Cell, b: Cell) {
    Rank(a) < Rank(b) ||
    (a.Missing? && b.Missing?) ||
    (a.Num? && b.Num? && a.v <= b.v) ||
    (a.Text? && b.Text? && StrLe(a.s, b.s))
  }

  lemma KeyLeTotal(a: Cell, b: Cell)
    ensures KeyLe(a, b) || KeyLe(b, a)
  {
    if a.Text? && b.Text? {
      StrLeTotal(a.s, b.s);
    }
  }

  lemma KeyLeTrans(a: Cell, b: Cell, c: Cell)
    requires KeyLe(a, b) && KeyLe(b, c)
    ensures KeyLe(a, c)
  {
    if a.Text? && b.Text? && c.Text? {
      StrLeTrans(a.s, b.s, c.s);
    }
  }

  /** Between numbers the order is the numeric one, and missing is below every present value. */
  lemma KeyLeNumbers(a: Cell, b: Cell)
    ensures a.Num? && b.Num? ==> (KeyLe(a, b) <==> a.v <= b.v)
    ensures a.Missing? ==> KeyLe(a, b)
    ensures b.Missing? && KeyLe(a, b) ==> a.Missing?
  {
  }
}
