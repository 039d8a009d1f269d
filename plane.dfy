/** The plane both arms move in. */
module Plane {
  /** A point, or a vector from the base, in the arm's plane. */
  datatype Point = Point(x: real, y: real)
}
