# Checkerboard board geometry (CameraCallib)

This project models the board-geometry generator of the CameraCallib camera-calibration
tool. A camera is calibrated from pictures of a flat checkerboard whose interior corners
have known physical positions. `calculateKnownBoardPosition` produces those positions:
given the board size (`width` corners per row, `height` rows) and the edge length of one
square, it appends the 3-D point `(x*edge, y*edge, 0)` of every corner to a vector the
caller owns. Rows are the outer loop and columns the inner loop. So the points come out in
row-major order, the same order in which the corner detector reports image points.

Files:

- `geometry.dfy` (module `Geometry`): the value types `Size` (cv::Size) and `Point3`
  (cv::Point3f), and the class `PointVector`, which stands for the caller's
  `std::vector<Point3f>`. Its `PushBack` appends one point at the end.
- `camera_callib.dfy` (module `CameraCallib`):
  - the reference definition of the board's corners: `Corner`, `RowPoints`, `BoardRows`
    and `KnownBoardPosition`;
  - the imperative procedure `CalculateKnownBoardPosition`, written with the source's two
    nested loops and proved against that definition;
  - lemmas for length, row-major placement, the z = 0 plane, ordering within and across
    rows and the empty-board case;
  - a client method, `SameBoardSameCorners`, that states determinism. It follows directly
    from the procedure's postcondition and is not a separate proof.

The source uses single-precision floats. Here they are exact reals, so `x * edge` is the
exact product. The C++ `int` board dimensions are unbounded integers. The loop counters
never go past the bounds, so nothing can overflow.

Notes on the code's behaviour:

- The code accepts any `int` size and any edge length. A non-positive width or height
  gives no points (`NothingForEmptyBoard`).
- `Size(6, 9)` is width 6, height 9: 9 rows of 6 corners (`ChessboardGeometry`).
- Ordering across rows is strict only when the edge is positive. The lemmas state the
  exact step (`+edge`), which holds for any real edge, and derive strict growth when
  `edge > 0`.

## Model

| member | source | states |
|---|---|---|
| `Geometry.PointVector.PushBack` | CameraCallib/CameraCallib.cpp:27 | `push_back` appends the point at the end and leaves every earlier element where it was |
| `CameraCallib.CalculateKnownBoardPosition` | CameraCallib/CameraCallib.cpp:21-30 | the vector afterwards is its old contents followed by the whole board in row-major order. It grows by exactly the corner count, and its old elements are kept as a prefix: it is never cleared |
| `CameraCallib.SameBoardSameCorners` | CameraCallib/CameraCallib.cpp:21-30 | two runs with the same size and edge, on two distinct vectors that start equal, leave them equal (the output is deterministic) |
| `CameraCallib.AppendedCornerAt` | CameraCallib/CameraCallib.cpp:23-27 | after the board is appended, the corner of column x, row y is at offset `old_len + y*width + x` and equals `(x*edge, y*edge, 0)` |
| `CameraCallib.RowPointsAt` | CameraCallib/CameraCallib.cpp:25-27 | the inner loop's `count` points are the corners of columns 0..count-1 of the row, in increasing column order |
| `CameraCallib.RowPointsLength` | CameraCallib/CameraCallib.cpp:25 | the inner loop adds `width` points, or none when `width <= 0` |
| `CameraCallib.BoardRowsLength` | CameraCallib/CameraCallib.cpp:23-28 | `rows` passes of the outer loop add `rows*width` points, or none when either bound is non-positive. This holds even when both bounds are negative and their product is positive |
| `CameraCallib.BoardRowsAt` | CameraCallib/CameraCallib.cpp:23-28 | within the first `rows` rows, the corner of column x, row y is element `y*width + x` |
| `CameraCallib.KnownBoardPositionAt` | CameraCallib/CameraCallib.cpp:23-27 | row-major order: element `y*width + x` of the board is `(x*edge, y*edge, 0)` for every on-board column x and row y |
| `CameraCallib.KnownBoardPositionIndex` | CameraCallib/CameraCallib.cpp:23-27 | the converse: every element k is the corner of column `k % width` and row `k / width`, and that row is on the board |
| `CameraCallib.KnownBoardPositionLength` | CameraCallib/CameraCallib.cpp:23-28 | the board has `width*height` points when both sides are non-negative, and none when either is non-positive |
| `CameraCallib.NothingForEmptyBoard` | CameraCallib/CameraCallib.cpp:23-25 | a board with `width <= 0` or `height <= 0` contributes nothing |
| `CameraCallib.BoardLiesInPlaneZ0` | CameraCallib/CameraCallib.cpp:27 | every generated point has z = 0: the board lies in the z = 0 plane |
| `CameraCallib.RowOrdering` | CameraCallib/CameraCallib.cpp:25-27 | within one row all points share y. x grows by `(x2 - x1)*edge` between columns x1 < x2, so it strictly increases when `edge > 0` |
| `CameraCallib.RowStep` | CameraCallib/CameraCallib.cpp:23-27 | from one row to the next, the point in the same column keeps x and gains exactly `edge` in y, so y strictly increases when `edge > 0` |
| `CameraCallib.ChessboardGeometry` | CameraCallib/CameraCallib.cpp:16-30 | the program's 6-by-9 board with 19.05 mm squares has 54 points. Element 6 starts the second row at `(0, 0.01905, 0)`, and the last element is `(5*0.01905, 8*0.01905, 0)` |

## Left out

- `getChessboardCorners` (CameraCallib/CameraCallib.cpp:33-41) only calls OpenCV's
  `findChessboardCorners` and `drawChessboardCorners`. That library code is not part of
  this model, and the function drops the `found` flag, so it has no contract of its own.
- `main` (CameraCallib/CameraCallib.cpp:43-78) is camera capture, window display and key
  polling. It is I/O and user-interface plumbing.
- Single-precision float rounding of `x * boardEdgeLength` and of the `int`-to-`float`
  conversion of `x` and `y`: the model uses exact reals. Two consequences:
  - Non-finite edge lengths cannot occur in the model. In the code an infinite edge gives
    `0 * inf = NaN` at x = 0.
  - The exact `+edge` step in `RowStep` and the strict increase in `RowOrdering` hold for
    exact reals only. In `float`, `(y+1)*e` and `y*e + e` can differ by one ulp, and
    column indices beyond 2^24 collide after conversion.
- `arucoSquareDimension` is never used by the code. The other two constants appear only in
  `ChessboardGeometry`. Their float values are taken as the exact decimals.
- Memory exhaustion in `push_back` (`std::bad_alloc`): the model's vector is unbounded.
- `CameraCallib/CameraCallib.cpp` holds no calibration solver, result writer or
  accept/calibrate session logic, so none is modelled.
