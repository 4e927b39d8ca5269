/** Addressing of the 96-position target plate (generate_idot.py:25-42).

    A well is the string the script uses, a row letter followed by the
    decimal column number ("A1", "H12").  The plate is filled in
    column-major order: column 1 rows A..H, then column 2, and so on. */
module WellGrid {
  import opened Outcomes

  /** ROWS_96: the row letters, top to bottom. */
  const RowLetters: string := "ABCDEFGH"
  /** COLS_96 is range(1, 13). */
  const FirstColumn: nat := 1
  const LastColumn: nat := 12
  const PlateCapacity: nat := 96

  predicate IsDigit(c: char) {
    '0' <= c <= '9'
  }

  predicate AllDigits(s: string) {
    forall i :: 0 <= i < |s| ==> IsDigit(s[i])
  }

  function DigitChar(d: nat): (c: char)
    requires d < 10
    ensures IsDigit(c)
  {
    ('0' as int + d) as char
  }

  function DigitValue(c: char): (d: nat)
    requires IsDigit(c)
    ensures d < 10
  {
    c as int - '0' as int
  }

  /** `str(n)` of a non-negative integer: its decimal digits, no leading zero. */
  function Decimal(n: nat): (s: string)
    ensures |s| > 0 && AllDigits(s)
    ensures |s| > 1 ==> s[0] != '0'
  {
    if n < 10 then [DigitChar(n)] else Decimal(n / 10) + [DigitChar(n % 10)]
  }

  /** The value of a string of decimal digits, most significant first. */
  function DecimalValue(s: string): nat
    requires AllDigits(s)
  {
    if |s| == 0 then 0 else 10 * DecimalValue(s[..|s| - 1]) + DigitValue(s[|s| - 1])
  }

  /** Python's `int(s)`, restricted to strings of ASCII digits. */
  function ParseColumn(s: string): (r: Option<nat>)
    ensures r.Some? <==> |s| > 0 && AllDigits(s)
  {
    if |s| > 0 && AllDigits(s) then Some(DecimalValue(s)) else None
  }

  /** `str.upper()` on one character, for the ASCII letters. */
  function UpperAscii(c: char): (u: char)
    ensures 'a' <= c <= 'z' ==> u as int == c as int - 32
    ensures !('a' <= c <= 'z') ==> u == c
  {
    if 'a' <= c <= 'z' then (c as int - 32) as char else c
  }

  /** `s.index(c)`: the first position of `c` in `s`, if any. */
  function IndexOf(s: string, c: char): (r: Option<nat>)
    ensures r.Some? ==> r.value < |s| && s[r.value] == c
                        && forall j :: 0 <= j < r.value ==> s[j] != c
    ensures r.None? ==> forall j :: 0 <= j < |s| ==> s[j] != c
  {
    if |s| == 0 then None
    else if s[0] == c then Some(0)
    else match IndexOf(s[1..], c)
      case None => None
      case Some(k) => Some(k + 1)
  }

  /** The sort key `(column, row index)`; Python tuples compare
      lexicographically. */
  type SortKey = (nat, nat)

  predicate KeyLess(a: SortKey, b: SortKey) {
    a.0 < b.0 || (a.0 == b.0 && a.1 < b.1)
  }

  /** well_sort_key (generate_idot.py:29-32).  `None` stands for the
      exception the script raises: an empty string (IndexError), a column
      that is not a number, or a row letter outside A..H (ValueError). */
  function WellSortKey(well: string): (r: Option<SortKey>)
    ensures r.Some? ==> |well| > 0 && r.value.1 < |RowLetters|
                        && RowLetters[r.value.1] == UpperAscii(well[0])
                        && ParseColumn(well[1..]) == Some(r.value.0)
    ensures |well| > 0 && ParseColumn(well[1..]).Some? && UpperAscii(well[0]) in RowLetters ==> r.Some?
  {
    if |well| == 0 then None
    else
      var row := UpperAscii(well[0]);
      match ParseColumn(well[1..])
      case None => None
      case Some(col) =>
        match IndexOf(RowLetters, row)
        case None => None
        case Some(ri) => Some((col, ri))
  }

  /** The name `f"{r}{c}"` of the well in row `row` (0-based) and column
      `col`: the row letter, then digits that read back as the column. */
  function WellName(row: nat, col: nat): (w: string)
    requires row < |RowLetters|
    ensures |w| >= 2 && w[0] == RowLetters[row]
    ensures AllDigits(w[1..]) && DecimalValue(w[1..]) == col
  {
    DecimalRoundTrip(col);
    assert ([RowLetters[row]] + Decimal(col))[1..] == Decimal(col);
    [RowLetters[row]] + Decimal(col)
  }

  /** The inner comprehension `for r in ROWS_96` for one column. */
  function ColumnWells(col: nat): seq<string> {
    seq(|RowLetters|, r requires 0 <= r < |RowLetters| => WellName(r, col))
  }

  /** The comprehension `[f"{r}{c}" for c in COLS_96 for r in ROWS_96]`,
      from column `col` on. */
  function WellsFrom(col: nat): seq<string>
    decreases LastColumn + 1 - col
  {
    if col > LastColumn then [] else ColumnWells(col) + WellsFrom(col + 1)
  }

  /** Every well of the plate in column-major order. */
  function AllWells(): seq<string> {
    WellsFrom(FirstColumn)
  }

  /** Python's `s[:k]`; a negative `k` counts from the end. */
  function PrefixSlice<T>(s: seq<T>, k: int): (r: seq<T>)
    ensures r <= s
    ensures 0 <= k <= |s| ==> |r| == k
    ensures k > |s| ==> r == s
    ensures k < 0 ==> |r| == if |s| + k >= 0 then |s| + k else 0
  {
    if k >= 0 then s[..if k <= |s| then k else |s|]
    else s[..if |s| + k >= 0 then |s| + k else 0]
  }

  /** generate_target_wells (generate_idot.py:35-42): the first `count`
      wells in column-major order, row letter cycling fastest. */
  function GenerateTargetWells(count: int): (r: Result<seq<string>>)
    ensures r.Err? <==> count > PlateCapacity
    ensures r.Err? ==> r.error == CapacityError(count, PlateCapacity)
    ensures 0 <= count <= PlateCapacity ==> r.Ok? && |r.value| == count
    ensures count < 0 ==> r.Ok? && |r.value| == if PlateCapacity + count >= 0 then PlateCapacity + count else 0
    ensures r.Ok? ==> forall i :: 0 <= i < |r.value| ==> r.value[i] == WellName(i % 8, i / 8 + 1)
  {
    AllWellsColumnMajor();
    var wells := AllWells();
    if count > |wells| then Err(CapacityError(count, |wells|)) else Ok(PrefixSlice(wells, count))
  }

  /** The comprehension lists 8 wells per column. */
  lemma {:induction false} WellsFromSize(col: nat)
    requires FirstColumn <= col <= LastColumn + 1
    ensures |WellsFrom(col)| == 8 * (LastColumn + 1 - col)
    decreases LastColumn + 1 - col
  {
    if col <= LastColumn {
      WellsFromSize(col + 1);
    }
  }

  /** Row `r` of the `q`-th column from `col` on sits at entry `8 * q + r`. */
  lemma {:induction false} WellsFromIndex(col: nat, q: nat, r: nat)
    requires FirstColumn <= col && col + q <= LastColumn && r < 8
    ensures 8 * q + r < |WellsFrom(col)| && WellsFrom(col)[8 * q + r] == ColumnWells(col + q)[r]
    decreases q
  {
    WellsFromSize(col);
    if q > 0 {
      WellsFromSize(col + 1);
      WellsFromIndex(col + 1, q - 1, r);
      assert WellsFrom(col)[8 * q + r] == WellsFrom(col + 1)[8 * (q - 1) + r];
    }
  }

  /** The comprehension lists 8 wells per column, row letter fastest. */
  lemma WellsFromAt(col: nat)
    requires FirstColumn <= col <= LastColumn + 1
    ensures |WellsFrom(col)| == 8 * (LastColumn + 1 - col)
    ensures forall i :: 0 <= i < |WellsFrom(col)| ==> WellsFrom(col)[i] == WellName(i % 8, col + i / 8)
  {
    WellsFromSize(col);
    forall i | 0 <= i < |WellsFrom(col)|
      ensures WellsFrom(col)[i] == WellName(i % 8, col + i / 8)
    {
      WellsFromIndex(col, i / 8, i % 8);
      assert ColumnWells(col + i / 8)[i % 8] == WellName(i % 8, col + i / 8);
    }
  }

  /** The whole plate: 96 wells, the i-th in row i % 8 of column i / 8 + 1. */
  lemma AllWellsColumnMajor()
    ensures |AllWells()| == PlateCapacity
    ensures forall i :: 0 <= i < PlateCapacity ==> AllWells()[i] == WellName(i % 8, i / 8 + 1)
  {
    WellsFromAt(FirstColumn);
  }

  /** Reading back the digits `str` writes gives the number. */
  lemma {:induction false} DecimalRoundTrip(n: nat)
    ensures DecimalValue(Decimal(n)) == n
  {
    if n >= 10 {
      DecimalRoundTrip(n / 10);
      var s := Decimal(n);
      assert s[..|s| - 1] == Decimal(n / 10);
    }
  }

  /** The sort key of a generated well name is its (column, row index). */
  lemma {:induction false} SortKeyOfWellName(row: nat, col: nat)
    requires row < |RowLetters|
    ensures WellSortKey(WellName(row, col)) == Some((col, row))
  {
    var w := WellName(row, col);
    assert w[1..] == Decimal(col);
    DecimalRoundTrip(col);
    assert UpperAscii(w[0]) == RowLetters[row];
    var ri := IndexOf(RowLetters, RowLetters[row]);
    assert ri == Some(row) by {
      assert forall j, k :: 0 <= j < k < |RowLetters| ==> RowLetters[j] != RowLetters[k];
    }
  }

  /** The generated target wells have strictly increasing sort keys, so
      they are pairwise distinct and already in display order. */
  lemma TargetWellsOrdered(count: int)
    requires GenerateTargetWells(count).Ok?
    ensures var ws := GenerateTargetWells(count).value;
      && (forall i :: 0 <= i < |ws| ==> WellSortKey(ws[i]) == Some((i / 8 + 1, i % 8)))
      && (forall i, j :: 0 <= i < j < |ws| ==> KeyLess(WellSortKey(ws[i]).value, WellSortKey(ws[j]).value))
      && (forall i, j :: 0 <= i < j < |ws| ==> ws[i] != ws[j])
  {
    var ws := GenerateTargetWells(count).value;
    forall i | 0 <= i < |ws|
      ensures WellSortKey(ws[i]) == Some((i / 8 + 1, i % 8))
    {
      SortKeyOfWellName(i % 8, i / 8 + 1);
    }
    forall i, j | 0 <= i < j < |ws|
      ensures KeyLess(WellSortKey(ws[i]).value, WellSortKey(ws[j]).value)
    {
      assert i / 8 < j / 8 || (i / 8 == j / 8 && i % 8 < j % 8);
    }
  }
}
