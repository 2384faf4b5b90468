/** The known geometry of the checkerboard calibration target: the 3-D board-local
    coordinates of its interior corners, appended row by row to a caller's vector. */
module CameraCallib {
  import opened Geometry

  /** The physical edge of one checkerboard square, in metres (a float in the source). */
  const CalibrationSquareDimension: real := 0.01905

  /** The board used by the program: 6 corners per row, 9 rows. */
  const ChessboardDimension: Size := Size(6, 9)

  /** The board-local position of the corner in column `x` and row `y`: it lies in the
      z = 0 plane, `x` squares along and `y` squares down. */
  function Corner(x: int, y: int, edge: real): Point3
  {
    Point3(x as real * edge, y as real * edge, 0.0)
  }

  /** The corners of row `y` in columns 0 .. count-1, left to right (none when count <= 0). */
  function RowPoints(y: int, count: int, edge: real): seq<Point3>
    decreases count
  {
    if count <= 0 then [] else RowPoints(y, count - 1, edge) + [Corner(count - 1, y, edge)]
  }

  /** Rows 0 .. rows-1 of a board `width` corners wide, each row complete, top row first. */
  function BoardRows(width: int, rows: int, edge: real): seq<Point3>
    decreases rows
  {
    if rows <= 0 then [] else BoardRows(width, rows - 1, edge) + RowPoints(rows - 1, width, edge)
  }

  /** Every corner of the board, in row-major order. */
  function KnownBoardPosition(boardSize: Size, edge: real): seq<Point3>
  {
    BoardRows(boardSize.width, boardSize.height, edge)
  }

  /** How many corners a board of this size has; a non-positive side means none. */
  function CornerCount(boardSize: Size): nat
  {
    if boardSize.width <= 0 || boardSize.height <= 0 then 0 else boardSize.height * boardSize.width
  }

  /** calculateKnownBoardPosition: for each row y, for each column x, push the corner
      (x*edge, y*edge, 0) onto `corners`. The vector is never cleared: what it held before
      stays in front, and the board's corners follow in row-major order (see
      AppendedCornerAt for where each corner lands). */
  method CalculateKnownBoardPosition(boardSize: Size, boardEdgeLength: real, corners: PointVector)
    modifies corners
    ensures corners.elems == old(corners.elems) + KnownBoardPosition(boardSize, boardEdgeLength)
    ensures |corners.elems| == |old(corners.elems)| + CornerCount(boardSize)
    ensures corners.elems[..|old(corners.elems)|] == old(corners.elems)
  {
    ghost var before := corners.elems;
    var y := 0;
    while y < boardSize.height
      invariant 0 <= y && (y <= boardSize.height || y == 0)
      invariant corners.elems == before + BoardRows(boardSize.width, y, boardEdgeLength)
    {
      var x := 0;
      while x < boardSize.width
        invariant 0 <= x && (x <= boardSize.width || x == 0)
        invariant corners.elems == before + BoardRows(boardSize.width, y, boardEdgeLength)
                                          + RowPoints(y, x, boardEdgeLength)
      {
        corners.PushBack(Corner(x, y, boardEdgeLength));
        x := x + 1;
      }
      y := y + 1;
    }
    BoardRowsLength(boardSize.width, boardSize.height, boardEdgeLength);
    assert corners.elems[..|before|] == before;
  }

  /** After appending the board to `before`, the corner of column x, row y sits at offset
      y*width + x past the old end. */
  lemma AppendedCornerAt(before: seq<Point3>, boardSize: Size, edge: real, x: int, y: int)
    requires 0 <= x < boardSize.width && 0 <= y < boardSize.height
    ensures |before| + y * boardSize.width + x < |before + KnownBoardPosition(boardSize, edge)|
    ensures (before + KnownBoardPosition(boardSize, edge))[|before| + y * boardSize.width + x]
         == Corner(x, y, edge)
  {
    KnownBoardPositionAt(boardSize, edge, x, y);
  }

  /** Two runs with the same board size and edge length, on two vectors that start out
      equal, leave the vectors equal: the generated geometry is the same every time. */
  method SameBoardSameCorners(boardSize: Size, boardEdgeLength: real, a: PointVector, b: PointVector)
    requires a != b && a.elems == b.elems
    modifies a, b
    ensures a.elems == b.elems
    ensures a.elems == old(a.elems) + KnownBoardPosition(boardSize, boardEdgeLength)
  {
    CalculateKnownBoardPosition(boardSize, boardEdgeLength, a);
    CalculateKnownBoardPosition(boardSize, boardEdgeLength, b);
  }

  // ---------------------------------------------------------------------------
  // Properties of the corner sequence

  /** A row of `count` corners holds exactly the corners of columns 0 .. count-1 in order. */
  lemma {:induction false} RowPointsAt(y: int, count: int, edge: real, x: int)
    requires 0 <= x < count
    ensures |RowPoints(y, count, edge)| == count
    ensures RowPoints(y, count, edge)[x] == Corner(x, y, edge)
  {
    if x < count - 1 {
      RowPointsAt(y, count - 1, edge, x);
    } else if count > 1 {
      RowPointsAt(y, count - 1, edge, 0);
    }
  }

  /** A row with a non-positive column count is empty; otherwise it has `count` corners. */
  lemma {:induction false} RowPointsLength(y: int, count: int, edge: real)
    ensures |RowPoints(y, count, edge)| == if count <= 0 then 0 else count
  {
    if count > 0 {
      RowPointsLength(y, count - 1, edge);
    }
  }

  /** `rows` complete rows of `width` corners hold rows*width corners, and none at all when
      either side is non-positive (a negative width and a negative row count do not
      multiply into a positive count). */
  lemma {:induction false} BoardRowsLength(width: int, rows: int, edge: real)
    ensures |BoardRows(width, rows, edge)| == if width <= 0 || rows <= 0 then 0 else rows * width
  {
    if rows > 0 {
      BoardRowsLength(width, rows - 1, edge);
      RowPointsLength(rows - 1, width, edge);
      if width > 0 {
        NextRowOffset(rows - 1, width);
      }
    }
  }

  /** Row-major placement: the corner of column x, row y sits at index y*width + x. */
  lemma {:induction false} BoardRowsAt(width: int, rows: int, edge: real, x: int, y: int)
    requires 0 <= x < width && 0 <= y < rows
    ensures |BoardRows(width, rows, edge)| == rows * width
    ensures y * width + x < rows * width
    ensures BoardRows(width, rows, edge)[y * width + x] == Corner(x, y, edge)
  {
    BoardRowsLength(width, rows, edge);
    var prefix := BoardRows(width, rows - 1, edge);
    if y == rows - 1 {
      BoardRowsLength(width, rows - 1, edge);
      NextRowOffset(y, width);
      RowPointsAt(y, width, edge, x);
    } else {
      BoardRowsAt(width, rows - 1, edge, x, y);
      NextRowOffset(rows - 1, width);
    }
  }

  /** Arithmetic: one more row of `width` corners moves the offset on by `width`. */
  lemma NextRowOffset(y: int, width: int)
    ensures (y + 1) * width == y * width + width
  {
  }

  /** Arithmetic: an index below rows*width lies in one of the first `rows` rows. */
  lemma RowOfIndex(k: int, width: int, rows: int)
    requires 0 < width && 0 <= k < rows * width
    ensures k / width < rows
  {
  }

  /** Arithmetic: an index splits into its row (quotient) and column (remainder). */
  lemma SplitIndex(k: int, width: int)
    requires 0 < width && 0 <= k
    ensures k == (k / width) * width + k % width && 0 <= k % width < width
  {
  }

  /** Row-major order on the whole board: the corner of column x, row y is element
      y*width + x. */
  lemma KnownBoardPositionAt(boardSize: Size, edge: real, x: int, y: int)
    requires 0 <= x < boardSize.width && 0 <= y < boardSize.height
    ensures y * boardSize.width + x < |KnownBoardPosition(boardSize, edge)|
    ensures KnownBoardPosition(boardSize, edge)[y * boardSize.width + x] == Corner(x, y, edge)
  {
    BoardRowsAt(boardSize.width, boardSize.height, edge, x, y);
  }

  /** The generator's length contract: exactly width*height corners when both sides are
      positive, and none otherwise. */
  lemma KnownBoardPositionLength(boardSize: Size, edge: real)
    ensures |KnownBoardPosition(boardSize, edge)| == CornerCount(boardSize)
    ensures boardSize.width >= 0 && boardSize.height >= 0 ==>
      |KnownBoardPosition(boardSize, edge)| == boardSize.height * boardSize.width
  {
    BoardRowsLength(boardSize.width, boardSize.height, edge);
  }

  /** A board with a non-positive width or height contributes no corners. */
  lemma NothingForEmptyBoard(boardSize: Size, edge: real)
    requires boardSize.width <= 0 || boardSize.height <= 0
    ensures KnownBoardPosition(boardSize, edge) == []
  {
    BoardRowsLength(boardSize.width, boardSize.height, edge);
  }

  /** The converse of row-major placement: the element at index k is the grid corner of
      column k % width and row k / width, and that corner lies on the board. */
  lemma KnownBoardPositionIndex(boardSize: Size, edge: real, k: int)
    requires 0 <= k < |KnownBoardPosition(boardSize, edge)|
    ensures boardSize.width > 0 && boardSize.height > 0
    ensures k / boardSize.width < boardSize.height
    ensures KnownBoardPosition(boardSize, edge)[k] == Corner(k % boardSize.width, k / boardSize.width, edge)
  {
    var w, h := boardSize.width, boardSize.height;
    BoardRowsLength(w, h, edge);
    var x, y := k % w, k / w;
    SplitIndex(k, w);
    RowOfIndex(k, w, h);
    BoardRowsAt(w, h, edge, x, y);
  }

  /** The board lies in the z = 0 plane: every generated corner has z coordinate 0. */
  lemma BoardLiesInPlaneZ0(boardSize: Size, edge: real)
    ensures forall p :: p in KnownBoardPosition(boardSize, edge) ==> p.z == 0.0
  {
    var corners := KnownBoardPosition(boardSize, edge);
    forall p | p in corners
      ensures p.z == 0.0
    {
      var k :| 0 <= k < |corners| && corners[k] == p;
      KnownBoardPositionIndex(boardSize, edge, k);
    }
  }

  /** Within one row all corners share the same y, and with a positive edge length x
      strictly increases from left to right. */
  lemma RowOrdering(boardSize: Size, edge: real, y: int, x1: int, x2: int)
    requires 0 <= y < boardSize.height && 0 <= x1 < x2 < boardSize.width
    ensures y * boardSize.width + x2 < |KnownBoardPosition(boardSize, edge)|
    ensures KnownBoardPosition(boardSize, edge)[y * boardSize.width + x1].y
         == KnownBoardPosition(boardSize, edge)[y * boardSize.width + x2].y
    ensures KnownBoardPosition(boardSize, edge)[y * boardSize.width + x2].x
         == KnownBoardPosition(boardSize, edge)[y * boardSize.width + x1].x + (x2 - x1) as real * edge
    ensures edge > 0.0 ==>
      KnownBoardPosition(boardSize, edge)[y * boardSize.width + x1].x
      < KnownBoardPosition(boardSize, edge)[y * boardSize.width + x2].x
  {
    BoardRowsAt(boardSize.width, boardSize.height, edge, x1, y);
    BoardRowsAt(boardSize.width, boardSize.height, edge, x2, y);
    if edge > 0.0 {
      assert (x2 - x1) as real * edge > 0.0;
    }
  }

  /** Between consecutive rows the corner in the same column keeps its x and moves down by
      exactly one edge length, so with a positive edge y strictly increases row to row. */
  lemma RowStep(boardSize: Size, edge: real, y: int, x: int)
    requires 0 <= y && y + 1 < boardSize.height && 0 <= x < boardSize.width
    ensures (y + 1) * boardSize.width + x < |KnownBoardPosition(boardSize, edge)|
    ensures KnownBoardPosition(boardSize, edge)[(y + 1) * boardSize.width + x].x
         == KnownBoardPosition(boardSize, edge)[y * boardSize.width + x].x
    ensures KnownBoardPosition(boardSize, edge)[(y + 1) * boardSize.width + x].y
         == KnownBoardPosition(boardSize, edge)[y * boardSize.width + x].y + edge
    ensures edge > 0.0 ==>
      KnownBoardPosition(boardSize, edge)[y * boardSize.width + x].y
      < KnownBoardPosition(boardSize, edge)[(y + 1) * boardSize.width + x].y
  {
    BoardRowsAt(boardSize.width, boardSize.height, edge, x, y);
    BoardRowsAt(boardSize.width, boardSize.height, edge, x, y + 1);
  }

  /** The program's own board: 6 x 9 corners on 19.05 mm squares gives 54 corners, the
      second row starting one square down, and the last corner at (5, 8) squares. */
  lemma ChessboardGeometry()
    ensures |KnownBoardPosition(ChessboardDimension, CalibrationSquareDimension)| == 54
    ensures KnownBoardPosition(ChessboardDimension, CalibrationSquareDimension)[6]
         == Point3(0.0, 0.01905, 0.0)
    ensures KnownBoardPosition(ChessboardDimension, CalibrationSquareDimension)[53]
         == Point3(5.0 * 0.01905, 8.0 * 0.01905, 0.0)
  {
    BoardRowsAt(6, 9, CalibrationSquareDimension, 0, 1);
    BoardRowsAt(6, 9, CalibrationSquareDimension, 5, 8);
  }
}
