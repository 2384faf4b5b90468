/** The few OpenCV and standard-library value types the board generator touches:
    cv::Size, cv::Point3f and a std::vector<Point3f> that is grown in place. */
module Geometry {

  /** cv::Size: `width` columns by `height` rows, both plain C++ ints. */
  datatype Size = Size(width: int, height: int)

  /** cv::Point3f. Single-precision floats are modelled as exact reals. */
  datatype Point3 = Point3(x: real, y: real, z: real)

  /** A std::vector<Point3f> owned by the caller; only push_back is used on it. */
  class PointVector {
    var elems: seq<Point3>

    /** std::vector::push_back: the new point goes at the end, nothing else moves. */
    method PushBack(p: Point3)
      modifies this
      ensures elems == old(elems) + [p]
    {
      elems := elems + [p];
    }
  }
}
