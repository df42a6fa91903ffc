/** The bounds tracker: the crop window's edges, centred in the container. */
module BoundsTracker {

  /** The crop window's edges, relative to the container's top-left corner. */
  datatype Bounds = Bounds(top: real, left: real, right: real, bottom: real)

  /**
   * updateBounds: a square window of side `size` whose left and right margins
   * are equal, and so are its top and bottom margins.
   */
  function ComputeBounds(containerWidth: real, containerHeight: real, size: real): (b: Bounds)
    ensures b.right - b.left == size && b.bottom - b.top == size
    ensures b.left == containerWidth - b.right && b.top == containerHeight - b.bottom
  {
    var top := (containerHeight - size) / 2.0;
    var left := (containerWidth - size) / 2.0;
    Bounds(top, left, left + size, top + size)
  }

  /** The side and the two centring conditions determine the bounds. */
  lemma BoundsAreDetermined(containerWidth: real, containerHeight: real, size: real, b: Bounds)
    requires b.right - b.left == size && b.bottom - b.top == size
    requires b.left == containerWidth - b.right && b.top == containerHeight - b.bottom
    ensures b == ComputeBounds(containerWidth, containerHeight, size)
  {
  }

  /** A change of the container's size moves each edge by half that change. */
  lemma ResizeMovesBoundsByHalf(width0: real, height0: real, width1: real, height1: real, size: real)
    ensures ComputeBounds(width1, height1, size).top - ComputeBounds(width0, height0, size).top
            == (height1 - height0) / 2.0
    ensures ComputeBounds(width1, height1, size).left - ComputeBounds(width0, height0, size).left
            == (width1 - width0) / 2.0
  {
  }
}
