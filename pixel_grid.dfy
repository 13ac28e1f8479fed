/** A pixel grid: rows of unsigned samples, row-major, as numpy holds a 2-D image. */
module PixelGrid {

  /** g[r][c] is the sample in row r, column c. */
  type Grid = seq<seq<nat>>

  /** The grid has `height` rows of `width` samples each (numpy shape (height, width)). */
  predicate HasShape(g: Grid, height: nat, width: nat)
  {
    |g| == height && forall r | 0 <= r < |g| :: |g[r]| == width
  }
}
