/** The layout arithmetic of `presenter` in src/presentation.hpp: how many
    characters a number takes and where run n's status goes on a grid of 20
    rows by 3 columns of 40 characters.  The terminal escape sequences are not
    modelled. */
module Presentation {
  import opened Decimal

  const IntMin: int := -0x8000_0000
  const IntMax: int := 0x7FFF_FFFF

  const ColMax: int := 3
  const LineNb: int := 20
  const LineWidth: int := 120 / ColMax

  /** C++ integer division and remainder, which truncate toward zero. */
  function CDiv(a: int, b: int): int
    requires b > 0
  {
    if a >= 0 then a / b else -((-a) / b)
  }

  function CRem(a: int, b: int): int
    requires b > 0
  {
    a - b * CDiv(a, b)
  }

  /** `digitnum(x)` for an int: the number of characters `std::to_string(x)`
      writes.  The negation in digitnum overflows on INT_MIN, hence the
      lower bound. */
  function DigitCount(x: int): (n: nat)
    requires IntMin < x <= IntMax
    ensures n == |IntToString(x)|
  {
    if x < 0 then 1 + NumDigits(-x) else NumDigits(x)
  }

  function NumDigits(n: nat): (d: nat)
    ensures d == |NatToString(n)|
  {
    if n < 10 then 1 else 1 + NumDigits(n / 10)
  }

  /** The do-while loop of `digitnum`. */
  method DigitNum(x0: int) returns (r: int)
    requires IntMin < x0 <= IntMax
    ensures r == DigitCount(x0)
  {
    r := if x0 < 0 then 1 else 0;
    var x := if x0 < 0 then -x0 else x0;
    ghost var total := DigitCount(x0);
    x := x / 10;
    r := r + 1;
    while x > 0
      invariant x >= 0
      invariant x > 0 ==> r + NumDigits(x) == total
      invariant x == 0 ==> r == total
      decreases x
    {
      x := x / 10;
      r := r + 1;
    }
  }

  /** The values the source checks with `static_assert`. */
  lemma DigitNumAsserted()
    ensures DigitCount(-1) == 2 && DigitCount(-10) == 3 && DigitCount(-9) == 2
    ensures DigitCount(0) == 1 && DigitCount(9) == 1 && DigitCount(10) == 2
  {
  }

  /** `header_size(run_count)`: the width of "Run " + number + ": ". */
  function HeaderSize(runCount: int): (n: int)
    requires IntMin < runCount <= IntMax
    ensures n == |"Run " + IntToString(runCount) + ": "|
    ensures n >= 7
  {
    |"Run "| + DigitCount(runCount) + |": "|
  }

  /** `count_to_col(run_count)`: the first column of run n's cell. */
  function CountToCol(runCount: int): int {
    CRem(CDiv(runCount, LineNb), ColMax) * LineWidth + 1
  }

  /** `count_to_row(run_count)`: the row of run n's cell. */
  function CountToRow(runCount: int): int {
    CRem(runCount, LineNb) + 1
  }

  lemma RowInRange(n: int)
    requires n >= 0
    ensures 1 <= CountToRow(n) <= LineNb
  {
  }

  lemma ColIsCellStart(n: int)
    requires n >= 0
    ensures CountToCol(n) in {1, 41, 81}
  {
  }

  lemma Decompose(n: int)
    requires n >= 0
    ensures n % 60 == 20 * ((n / 20) % 3) + n % 20
  {
    var q, r := n / 60, n % 60;
    assert n == 60 * q + r;
    assert n / 20 == 3 * q + r / 20;
    assert n % 20 == r % 20;
  }

  /** Two runs share a cell exactly when their numbers agree modulo 60, the
      number of cells on the screen: runs 60 apart overwrite each other. */
  lemma SameCellIff(n: int, m: int)
    requires n >= 0 && m >= 0
    ensures (CountToRow(n) == CountToRow(m) && CountToCol(n) == CountToCol(m)) <==> n % 60 == m % 60
  {
    CellOf(n);
    CellOf(m);
    Decompose(n);
    Decompose(m);
    DecompositionUnique((n / 20) % 3, n % 20, (m / 20) % 3, m % 20);
  }

  /** For a non-negative run number the cell is row n % 20 + 1 of column
      (n / 20) % 3. */
  lemma CellOf(n: int)
    requires n >= 0
    ensures CountToRow(n) == n % 20 + 1 && CountToCol(n) == 40 * ((n / 20) % 3) + 1
    ensures 0 <= (n / 20) % 3 < 3 && 0 <= n % 20 < 20
  {
  }

  /** A cell number 20 * column + row with row below 20 names one cell. */
  lemma DecompositionUnique(c1: int, r1: int, c2: int, r2: int)
    requires 0 <= r1 < 20 && 0 <= r2 < 20
    ensures 20 * c1 + r1 == 20 * c2 + r2 <==> c1 == c2 && r1 == r2
  {
  }
}
