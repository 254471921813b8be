/** The integer rectangles of android.graphics.Rect, used for key bounds and hit areas. */
module Rects {

  datatype Rect = Rect(left: int, top: int, right: int, bottom: int) {

    /**
     * Rect.contains(x, y): the rectangle is non-empty and the point lies in it,
     * left and top edges included, right and bottom edges excluded.
     */
    predicate Contains(x: int, y: int) {
      left < right && top < bottom && left <= x < right && top <= y < bottom
    }
  }
}
