/**
 * Integer geometry of the calendar grid: where a drag pointer lands and which
 * run of cells a drag from the anchor cell selects (src/components/Calendar.js).
 */
module CalendarGeometry {

  /** Math.min */
  function Min(a: int, b: int): int
  {
    if a <= b then a else b
  }

  /** Math.max */
  function Max(a: int, b: int): int
  {
    if a >= b then a else b
  }

  /** Math.floor(a / b) for a positive divisor: the largest q with b * q <= a. */
  function FloorDiv(a: int, b: int): (q: int)
    requires b > 0
    ensures b * q <= a < b * q + b
  {
    a / b
  }

  lemma MulMonotone(b: int, m: int, n: int)
    requires b > 0 && m <= n
    ensures b * m <= b * n
  {
  }

  /** The floor of a / b is the only q whose cell [b * q, b * q + b) holds a. */
  lemma FloorDivUnique(a: int, b: int, q: int)
    requires b > 0
    requires b * q <= a < b * q + b
    ensures FloorDiv(a, b) == q
  {
    var r := FloorDiv(a, b);
    if r < q {
      MulMonotone(b, r + 1, q);
    } else if r > q {
      MulMonotone(b, q + 1, r);
    }
  }

  /** A multiple of b divides back exactly. */
  lemma MulDivCancel(q: int, b: int)
    requires b > 0
    ensures (q * b) / b == q && (q * b) % b == 0
  {
    FloorDivUnique(q * b, b, q);
  }

  /**
   * The index of the cell under a pointer at (x, y), where (x, y) is measured
   * from the top-left corner of the anchor cell. The result is not clamped.
   */
  function FindCellIndex(anchor: int, cellsPerRow: int, cellWidth: int, cellHeight: int, x: int, y: int): (r: int)
    requires cellWidth > 0 && cellHeight > 0
    ensures 0 <= x < cellWidth && 0 <= y < cellHeight ==> r == anchor
    ensures var column := r - anchor - cellsPerRow * FloorDiv(y, cellHeight);
            cellWidth * column <= x < cellWidth * column + cellWidth
  {
    anchor + FloorDiv(x, cellWidth) + cellsPerRow * FloorDiv(y, cellHeight)
  }

  /**
   * A pointer inside the cell `columns` to the right of and `rows` below the
   * anchor cell (negative for left and up) maps to that cell's index.
   */
  lemma FindCellIndexLocatesCell(anchor: int, cellsPerRow: int, cellWidth: int, cellHeight: int,
                                 x: int, y: int, columns: int, rows: int)
    requires cellWidth > 0 && cellHeight > 0
    requires cellWidth * columns <= x < cellWidth * columns + cellWidth
    requires cellHeight * rows <= y < cellHeight * rows + cellHeight
    ensures FindCellIndex(anchor, cellsPerRow, cellWidth, cellHeight, x, y) == anchor + columns + cellsPerRow * rows
  {
    FloorDivUnique(x, cellWidth, columns);
    FloorDivUnique(y, cellHeight, rows);
  }

  /**
   * No clamping: every integer, negative ones and ones past the last day
   * included, is the index of some pointer position.
   */
  lemma FindCellIndexUnclamped(anchor: int, cellsPerRow: int, cellWidth: int, cellHeight: int, target: int)
    requires cellWidth > 0 && cellHeight > 0
    ensures FindCellIndex(anchor, cellsPerRow, cellWidth, cellHeight, cellWidth * (target - anchor), 0) == target
  {
    FindCellIndexLocatesCell(anchor, cellsPerRow, cellWidth, cellHeight,
                             cellWidth * (target - anchor), 0, target - anchor, 0);
  }

  /** The ascending run lo, lo + 1, ..., hi; empty when lo > hi. */
  function Interval(lo: int, hi: int): (r: seq<int>)
    ensures |r| == if lo <= hi then hi - lo + 1 else 0
    ensures forall k :: 0 <= k < |r| ==> r[k] == lo + k
    decreases hi - lo
  {
    if lo > hi then [] else [lo] + Interval(lo + 1, hi)
  }

  /** A number occurs in lo..hi exactly when it lies between the bounds. */
  lemma IntervalMembership(lo: int, hi: int)
    ensures forall i :: i in Interval(lo, hi) <==> lo <= i <= hi
  {
    var r := Interval(lo, hi);
    forall i | lo <= i <= hi
      ensures i in r
    {
      assert r[i - lo] == i;
    }
  }

  /**
   * The selection a drag from cell `anchor` to cell `current` produces over
   * `count` days: the cells between the two, in ascending order, clipped to
   * the existing days.
   */
  function SelectionRange(anchor: int, current: int, count: int): (r: seq<int>)
    ensures forall k :: 0 <= k < |r| ==> 0 <= r[k] < count
    ensures forall k :: 0 < k < |r| ==> r[k] == r[k - 1] + 1
    ensures forall i :: i in r <==> Min(anchor, current) <= i <= Max(anchor, current) && 0 <= i < count
    ensures 0 <= anchor < count ==> anchor in r
    ensures 0 <= current < count ==> current in r
  {
    var lo := Max(Min(anchor, current), 0);
    var hi := Min(Max(anchor, current), count - 1);
    IntervalMembership(lo, hi);
    Interval(lo, hi)
  }
}
