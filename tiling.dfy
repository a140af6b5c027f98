/**
 * The top-left offsets at which a tile is composited to cover a base image:
 * x steps by the tile width from 0 while below the base width (outer loop),
 * y by the tile height from 0 while below the base height (inner loop).
 */
module Tiling {

  /** An (x, y) offset. */
  type Position = (int, int)

  /**
   * The two counting loops of the source stop exactly when this holds: a
   * non-positive step is harmless only when its loop never runs.
   */
  predicate Terminates(width: int, height: int, stepW: int, stepH: int) {
    width <= 0 || (stepW > 0 && (height <= 0 || stepH > 0))
  }

  /** The offsets the inner loop yields for column x, from y = j on. */
  function Column(x: int, j: int, height: int, stepH: int): seq<Position>
    requires j >= height || stepH > 0
    decreases height - j
  {
    if j < height then [(x, j)] + Column(x, j + stepH, height, stepH) else []
  }

  /** The offsets the outer loop yields from column x = i on. */
  function Columns(i: int, width: int, height: int, stepW: int, stepH: int): seq<Position>
    requires i >= width || (stepW > 0 && (height <= 0 || stepH > 0))
    decreases width - i
  {
    if i < width then
      Column(i, 0, height, stepH) + Columns(i + stepW, width, height, stepW, stepH)
    else []
  }

  /** The whole list, in the order the loops push it. */
  function PositionList(width: int, height: int, stepW: int, stepH: int): seq<Position>
    requires Terminates(width, height, stepW, stepH)
  {
    Columns(0, width, height, stepW, stepH)
  }

  /** The loops of the source, pushing each offset onto `ret`. */
  method CalculatePositionList(width: int, height: int, stepW: int, stepH: int)
    returns (ret: seq<Position>)
    requires Terminates(width, height, stepW, stepH)
    ensures ret == PositionList(width, height, stepW, stepH)
  {
    ret := [];
    var i := 0;
    while i < width
      invariant i >= width || (stepW > 0 && (height <= 0 || stepH > 0))
      invariant ret + Columns(i, width, height, stepW, stepH) == PositionList(width, height, stepW, stepH)
    {
      var j := 0;
      while j < height
        invariant j >= height || stepH > 0
        invariant ret + Column(i, j, height, stepH) + Columns(i + stepW, width, height, stepW, stepH)
                  == PositionList(width, height, stepW, stepH)
      {
        ret := ret + [(i, j)];
        j := j + stepH;
      }
      i := i + stepW;
    }
  }

  /** The number of multiples k * step, k >= 0, that lie below `extent`. */
  function TileCount(extent: int, step: int): nat
    requires step > 0
    decreases extent
  {
    if extent <= 0 then 0 else 1 + TileCount(extent - step, step)
  }

  /** The tile count is the ceiling of extent / step for a positive extent, zero otherwise. */
  lemma {:induction false} TileCountIsCeiling(extent: int, step: int)
    requires step > 0
    ensures extent <= 0 ==> TileCount(extent, step) == 0
    ensures extent > 0 ==> (TileCount(extent, step) - 1) * step < extent <= TileCount(extent, step) * step
    decreases extent
  {
    if extent > 0 {
      var m: int := TileCount(extent - step, step);
      TileCountIsCeiling(extent - step, step);
      MulSucc(m, step);
      MulSucc(m - 1, step);
    }
  }

  /** Arithmetic step for the solver: multiplication distributes over a successor. */
  lemma MulSucc(c: int, r: int)
    ensures (c + 1) * r == r + c * r
  {
  }

  /** Arithmetic step for the solver: multiplying by a non-negative factor keeps order. */
  lemma MulMonotone(a: int, b: int, c: int)
    requires a <= b && c >= 0
    ensures a * c <= b * c
  {
  }

  /** Column j, j + stepH, ...: one offset per tile row left, the k-th at y = j + k * stepH. */
  lemma {:induction false} ColumnShape(x: int, j: int, height: int, stepH: int, k: int)
    requires stepH > 0
    ensures |Column(x, j, height, stepH)| == TileCount(height - j, stepH)
    ensures 0 <= k < |Column(x, j, height, stepH)| ==> Column(x, j, height, stepH)[k] == (x, j + k * stepH)
    decreases height - j
  {
    if j < height {
      ColumnShape(x, j + stepH, height, stepH, k - 1);
      MulSucc(k - 1, stepH);
    }
  }

  /** Columns from x = i on: the offset of tile (a, b) sits at index a * rows + b. */
  lemma {:induction false} ColumnsShape(i: int, width: int, height: int, stepW: int, stepH: int, a: int, b: int)
    requires stepW > 0 && stepH > 0
    requires 0 <= a < TileCount(width - i, stepW) && 0 <= b < TileCount(height, stepH)
    ensures |Columns(i, width, height, stepW, stepH)| == TileCount(width - i, stepW) * TileCount(height, stepH)
    ensures a * TileCount(height, stepH) + b < |Columns(i, width, height, stepW, stepH)|
    ensures Columns(i, width, height, stepW, stepH)[a * TileCount(height, stepH) + b] == (i + a * stepW, b * stepH)
    decreases width - i
  {
    var rows := TileCount(height, stepH);
    var cols := TileCount(width - i, stepW);
    assert i < width;
    ColumnShape(i, 0, height, stepH, b);
    var rest := Columns(i + stepW, width, height, stepW, stepH);
    assert Columns(i, width, height, stepW, stepH) == Column(i, 0, height, stepH) + rest;
    assert cols == 1 + TileCount(width - (i + stepW), stepW);
    if a == 0 {
      ColumnsLength(i + stepW, width, height, stepW, stepH);
    } else {
      ColumnsShape(i + stepW, width, height, stepW, stepH, a - 1, b);
      MulSucc(a - 1, rows);
      MulSucc(a - 1, stepW);
    }
    MulSucc(cols - 1, rows);
  }

  /** The length of the columns from x = i on: columns left times rows. */
  lemma {:induction false} ColumnsLength(i: int, width: int, height: int, stepW: int, stepH: int)
    requires stepW > 0 && stepH > 0
    ensures |Columns(i, width, height, stepW, stepH)| == TileCount(width - i, stepW) * TileCount(height, stepH)
    decreases width - i
  {
    if i < width {
      ColumnShape(i, 0, height, stepH, 0);
      ColumnsLength(i + stepW, width, height, stepW, stepH);
      var cols := TileCount(width - i, stepW);
      assert cols == 1 + TileCount(width - (i + stepW), stepW);
      MulSucc(cols - 1, TileCount(height, stepH));
    }
  }

  /** Columns over an empty height are all empty. */
  lemma {:induction false} ColumnsOverNoHeight(i: int, width: int, height: int, stepW: int, stepH: int)
    requires height <= 0 && (i >= width || stepW > 0)
    ensures Columns(i, width, height, stepW, stepH) == []
    decreases width - i
  {
    if i < width {
      ColumnsOverNoHeight(i + stepW, width, height, stepW, stepH);
    }
  }

  /** The list is empty exactly when the base has no width or no height. */
  lemma EmptyIff(width: int, height: int, stepW: int, stepH: int)
    requires Terminates(width, height, stepW, stepH)
    ensures PositionList(width, height, stepW, stepH) == [] <==> width <= 0 || height <= 0
  {
    if width > 0 && height <= 0 {
      ColumnsOverNoHeight(0, width, height, stepW, stepH);
    }
  }

  /** On a non-empty base the first offset is the origin. */
  lemma FirstIsOrigin(width: int, height: int, stepW: int, stepH: int)
    requires Terminates(width, height, stepW, stepH)
    requires width > 0 && height > 0
    ensures |PositionList(width, height, stepW, stepH)| > 0
    ensures PositionList(width, height, stepW, stepH)[0] == (0, 0)
  {
  }

  /** Positive steps: one offset per column of tiles times one per row of tiles. */
  lemma PositionListLength(width: int, height: int, stepW: int, stepH: int)
    requires stepW > 0 && stepH > 0
    ensures |PositionList(width, height, stepW, stepH)| == TileCount(width, stepW) * TileCount(height, stepH)
  {
    ColumnsLength(0, width, height, stepW, stepH);
  }

  /** Tile (a, b) of the grid is at index a * rows + b and has offset (a * stepW, b * stepH). */
  lemma PositionOfTile(width: int, height: int, stepW: int, stepH: int, a: int, b: int)
    requires stepW > 0 && stepH > 0
    requires 0 <= a < TileCount(width, stepW) && 0 <= b < TileCount(height, stepH)
    ensures a * TileCount(height, stepH) + b < |PositionList(width, height, stepW, stepH)|
    ensures PositionList(width, height, stepW, stepH)[a * TileCount(height, stepH) + b] == (a * stepW, b * stepH)
  {
    ColumnsShape(0, width, height, stepW, stepH, a, b);
  }

  /** Index n holds column n / rows and row n % rows of the grid. */
  lemma PositionAt(width: int, height: int, stepW: int, stepH: int, n: int)
    requires stepW > 0 && stepH > 0
    requires 0 <= n < |PositionList(width, height, stepW, stepH)|
    ensures TileCount(height, stepH) > 0
    ensures 0 <= n / TileCount(height, stepH) < TileCount(width, stepW)
    ensures PositionList(width, height, stepW, stepH)[n] ==
            ((n / TileCount(height, stepH)) * stepW, (n % TileCount(height, stepH)) * stepH)
  {
    var rows, cols := TileCount(height, stepH), TileCount(width, stepW);
    PositionListLength(width, height, stepW, stepH);
    IndexSplit(n, cols, rows);
    PositionOfTile(width, height, stepW, stepH, n / rows, n % rows);
  }

  /** An index below cols * rows splits into a column below cols and a row below rows. */
  lemma IndexSplit(n: int, cols: int, rows: int)
    requires 0 <= n < cols * rows && cols >= 0
    ensures rows > 0
    ensures n == (n / rows) * rows + n % rows && 0 <= n % rows < rows
    ensures 0 <= n / rows < cols
  {
  }

  /** Every offset lies on the base and on the grid of tile-size multiples. */
  lemma PositionInBounds(width: int, height: int, stepW: int, stepH: int, n: int)
    requires stepW > 0 && stepH > 0
    requires 0 <= n < |PositionList(width, height, stepW, stepH)|
    ensures 0 <= PositionList(width, height, stepW, stepH)[n].0 < width
    ensures 0 <= PositionList(width, height, stepW, stepH)[n].1 < height
    ensures PositionList(width, height, stepW, stepH)[n].0 % stepW == 0
    ensures PositionList(width, height, stepW, stepH)[n].1 % stepH == 0
  {
    var rows, cols := TileCount(height, stepH), TileCount(width, stepW);
    PositionAt(width, height, stepW, stepH, n);
    var a, b := n / rows, n % rows;
    TileCountIsCeiling(width, stepW);
    TileCountIsCeiling(height, stepH);
    MulMonotone(a, cols - 1, stepW);
    MulMonotone(b, rows - 1, stepH);
    MulMonotone(0, a, stepW);
    MulMonotone(0, b, stepH);
    MultipleMod(a, stepW);
    MultipleMod(b, stepH);
  }

  /** Arithmetic step for the solver: a multiple of s leaves no remainder. */
  lemma MultipleMod(a: int, s: int)
    requires s > 0
    ensures (a * s) % s == 0
  {
    var q, r := (a * s) / s, (a * s) % s;
    assert a * s == q * s + r;
    if r != 0 {
      if q < a {
        MulMonotone(q + 1, a, s);
        MulSucc(q, s);
      } else {
        MulMonotone(a, q, s);
      }
      assert false;
    }
  }

  /**
   * The order of the list: within a column y advances by the tile height; once
   * it would pass the base height, x advances by the tile width and y restarts at 0.
   */
  lemma PositionSuccessor(width: int, height: int, stepW: int, stepH: int, n: int)
    requires stepW > 0 && stepH > 0
    requires 0 <= n && n + 1 < |PositionList(width, height, stepW, stepH)|
    ensures var p, q := PositionList(width, height, stepW, stepH)[n], PositionList(width, height, stepW, stepH)[n + 1];
      if p.1 + stepH < height then q == (p.0, p.1 + stepH) else q == (p.0 + stepW, 0)
  {
    var rows, cols := TileCount(height, stepH), TileCount(width, stepW);
    PositionListLength(width, height, stepW, stepH);
    IndexSplit(n, cols, rows);
    var a, b := n / rows, n % rows;
    PositionOfTile(width, height, stepW, stepH, a, b);
    assert PositionList(width, height, stepW, stepH)[n] == (a * stepW, b * stepH);
    TileCountIsCeiling(height, stepH);
    MulSucc(b, stepH);
    if b + 1 < rows {
      MulMonotone(b + 1, rows - 1, stepH);
      PositionOfTile(width, height, stepW, stepH, a, b + 1);
      assert n + 1 == a * rows + (b + 1);
    } else {
      MulSucc(a, rows);
      if a + 1 >= cols {
        MulMonotone(cols, a + 1, rows);
        assert false;
      }
      PositionOfTile(width, height, stepW, stepH, a + 1, 0);
      assert n + 1 == (a + 1) * rows + 0;
      MulSucc(a, stepW);
    }
  }

  /** A stepW x stepH tile placed at `p` contains pixel (x, y). */
  predicate Holds(p: Position, stepW: int, stepH: int, x: int, y: int) {
    p.0 <= x < p.0 + stepW && p.1 <= y < p.1 + stepH
  }

  /** Tiles placed at the offsets cover every pixel of the base. */
  lemma Covers(width: int, height: int, stepW: int, stepH: int, x: int, y: int)
    requires stepW > 0 && stepH > 0
    requires 0 <= x < width && 0 <= y < height
    ensures exists n :: 0 <= n < |PositionList(width, height, stepW, stepH)| && Holds(PositionList(width, height, stepW, stepH)[n], stepW, stepH, x, y)
  {
    var rows, cols := TileCount(height, stepH), TileCount(width, stepW);
    var a, b := x / stepW, y / stepH;
    assert x == a * stepW + x % stepW;
    assert y == b * stepH + y % stepH;
    MulSucc(a, stepW);
    MulSucc(b, stepH);
    TileCountIsCeiling(width, stepW);
    TileCountIsCeiling(height, stepH);
    if a >= cols {
      MulMonotone(cols, a, stepW);
      assert false;
    }
    if b >= rows {
      MulMonotone(rows, b, stepH);
      assert false;
    }
    MulMonotone(0, a, stepW);
    MulMonotone(0, b, stepH);
    PositionOfTile(width, height, stepW, stepH, a, b);
    var n := a * rows + b;
    assert PositionList(width, height, stepW, stepH)[n] == (a * stepW, b * stepH);
  }

  /** On a non-empty base the last offset is that of the last column's last row. */
  lemma LastPosition(width: int, height: int, stepW: int, stepH: int)
    requires Terminates(width, height, stepW, stepH)
    requires width > 0 && height > 0
    ensures |PositionList(width, height, stepW, stepH)| > 0
    ensures PositionList(width, height, stepW, stepH)[|PositionList(width, height, stepW, stepH)| - 1] ==
            ((TileCount(width, stepW) - 1) * stepW, (TileCount(height, stepH) - 1) * stepH)
  {
    var rows, cols := TileCount(height, stepH), TileCount(width, stepW);
    PositionListLength(width, height, stepW, stepH);
    PositionOfTile(width, height, stepW, stepH, cols - 1, rows - 1);
    MulSucc(cols - 1, rows);
  }

  /** A 1000 x 600 base with 300 x 50 tiles: 4 columns of 12 rows, from (0, 0) to (900, 550). */
  lemma CoverExample()
    ensures |PositionList(1000, 600, 300, 50)| == 48
    ensures PositionList(1000, 600, 300, 50)[0] == (0, 0)
    ensures PositionList(1000, 600, 300, 50)[47] == (900, 550)
  {
    PositionListLength(1000, 600, 300, 50);
    LastPosition(1000, 600, 300, 50);
  }

  /** A 900 x 900 base with steps of 300 x 50: 3 columns of 18 rows. */
  lemma SquareCoverExample()
    ensures |PositionList(900, 900, 300, 50)| == 54
  {
    PositionListLength(900, 900, 300, 50);
    TileCountIsCeiling(900, 300);
    TileCountIsCeiling(900, 50);
  }
}
