/**
 * Core Graphics rectangles and sizes, with `CGFloat` modelled as `real`.
 */
module Geometry {

  /** A measured extent: the width of rendered text or of an image is never negative. */
  type Length = r: real | 0.0 <= r witness 0.0

  /**
   * A `CGRect`: an origin and a size whose components may be negative.
   * The fields are the raw `origin` and `size`; the member functions are the
   * standardized accessors (`minX`, `maxX`, `minY`, `width`, `height`), which
   * Core Graphics computes as if the size were made non-negative first.
   */
  datatype Rect = Rect(x: real, y: real, width: real, height: real) {
    function MinX(): real { if width < 0.0 then x + width else x }
    function MaxX(): real { if width < 0.0 then x else x + width }
    function MinY(): real { if height < 0.0 then y + height else y }
    function Width(): real { if width < 0.0 then -width else width }
    function Height(): real { if height < 0.0 then -height else height }
  }

  /** A view's `bounds`: its own coordinate space, the size of its frame at the origin. */
  function BoundsOf(frame: Rect): (b: Rect)
    ensures b.x == 0.0 && b.y == 0.0
    ensures b.Width() == frame.Width() && b.Height() == frame.Height()
  {
    Rect(0.0, 0.0, frame.width, frame.height)
  }

  /** `CGRect.zero`. */
  const Zero := Rect(0.0, 0.0, 0.0, 0.0)

  /** A `CGSize`. */
  datatype Size = Size(width: real, height: real)

  /** A `UIEdgeInsets`. */
  datatype EdgeInsets = EdgeInsets(top: real, left: real, bottom: real, right: real)

  /** `UIEdgeInsetsZero`. */
  const NoInsets := EdgeInsets(0.0, 0.0, 0.0, 0.0)
}
