/** The clamped positioner and the area descriptor it emits. */
module ClampedPositioner {
  import opened BoundsTracker
  import opened Reals

  /** The image, `extent` long on this axis, placed at `pos`, covers the window's span [near, far]. */
  predicate Covers(pos: real, extent: real, near: real, far: real) {
    pos <= near && pos + extent >= far
  }

  /**
   * One axis of _updateImgPos: `near` is bounds.top (bounds.left), `far` is
   * bounds.bottom (bounds.right) and `extent` the committed image height (width).
   * The two clamps run in sequence, so when the image is too short to cover
   * the window the second one wins.
   */
  function Clamp(proposed: real, near: real, far: real, extent: real): (r: real)
    ensures extent >= far - near ==> Covers(r, extent, near, far)
    ensures Covers(proposed, extent, near, far) ==> r == proposed
    ensures extent < far - near ==> r == far - extent && r > near
  {
    var pos := if proposed > near then near else proposed;
    if pos + extent < far then far - extent else pos
  }

  /** Clamping is the projection of the proposal onto the legal interval. */
  lemma ClampIsProjection(proposed: real, near: real, far: real, extent: real)
    requires extent >= far - near
    ensures Clamp(proposed, near, far, extent) == Max(far - extent, Min(proposed, near))
  {
  }

  /** No legal position is closer to the proposal than the clamped one. */
  lemma ClampIsNearest(proposed: real, legal: real, near: real, far: real, extent: real)
    requires Covers(legal, extent, near, far)
    ensures Abs(Clamp(proposed, near, far, extent) - proposed) <= Abs(legal - proposed)
  {
  }

  /** Clamping a clamped position changes nothing, whatever the extent. */
  lemma ClampIsIdempotent(proposed: real, near: real, far: real, extent: real)
    ensures Clamp(Clamp(proposed, near, far, extent), near, far, extent)
            == Clamp(proposed, near, far, extent)
  {
  }

  /** A proposal further along the axis never yields a position further back. */
  lemma ClampIsMonotonic(p: real, q: real, near: real, far: real, extent: real)
    requires p <= q
    ensures Clamp(p, near, far, extent) <= Clamp(q, near, far, extent)
  {
  }

  /** The descriptor getAreaInfo hands to onChanged: the crop window's offset into the displayed image. */
  datatype AreaInfo = AreaInfo(top: real, left: real, size: real, width: real, height: real)

  /**
   * getAreaInfo. For a window of side `size`, the crop square lies inside the
   * image exactly when the image covers the window on both axes.
   */
  function AreaOf(b: Bounds, liveTop: real, liveLeft: real, size: real, width: real, height: real): (a: AreaInfo)
    ensures liveTop + a.top == b.top && liveLeft + a.left == b.left
    ensures a.size == size && a.width == width && a.height == height
    ensures b.bottom - b.top == size ==>
              (0.0 <= a.top && a.top + a.size <= a.height <==> Covers(liveTop, height, b.top, b.bottom))
    ensures b.right - b.left == size ==>
              (0.0 <= a.left && a.left + a.size <= a.width <==> Covers(liveLeft, width, b.left, b.right))
  {
    AreaInfo(b.top - liveTop, b.left - liveLeft, size, width, height)
  }

  /** The descriptor determines the live position it was taken from. */
  lemma AreaDeterminesPosition(b: Bounds, top0: real, left0: real, top1: real, left1: real,
                               size: real, width: real, height: real)
    requires AreaOf(b, top0, left0, size, width, height) == AreaOf(b, top1, left1, size, width, height)
    ensures top0 == top1 && left0 == left1
  {
  }

  /**
   * setImgPos without arguments proposes the centred position. It covers the
   * window on an axis exactly when the image is at least as long as the
   * window there, and then the clamp keeps it.
   */
  lemma CentredPositionIsLegal(containerWidth: real, containerHeight: real, size: real,
                               width: real, height: real)
    ensures var b := ComputeBounds(containerWidth, containerHeight, size);
            var centredTop := (containerHeight - height) / 2.0;
            var centredLeft := (containerWidth - width) / 2.0;
            (Covers(centredTop, height, b.top, b.bottom) <==> height >= size)
            && (Covers(centredLeft, width, b.left, b.right) <==> width >= size)
            && (height >= size ==> Clamp(centredTop, b.top, b.bottom, height) == centredTop)
            && (width >= size ==> Clamp(centredLeft, b.left, b.right, width) == centredLeft)
  {
  }

  /**
   * onResize proposes the committed position moved by half the container's
   * change, as the window itself moves (ResizeMovesBoundsByHalf). A position
   * that covered the old window therefore covers the new one, and the
   * descriptor of the crop area does not change.
   */
  lemma ResizeKeepsArea(width0: real, height0: real, width1: real, height1: real, size: real,
                        top: real, left: real, width: real, height: real)
    requires var b0 := ComputeBounds(width0, height0, size);
             Covers(top, height, b0.top, b0.bottom) && Covers(left, width, b0.left, b0.right)
    ensures var b1 := ComputeBounds(width1, height1, size);
            var top1 := Clamp(top + (height1 - height0) / 2.0, b1.top, b1.bottom, height);
            var left1 := Clamp(left + (width1 - width0) / 2.0, b1.left, b1.right, width);
            AreaOf(b1, top1, left1, size, width, height)
            == AreaOf(ComputeBounds(width0, height0, size), top, left, size, width, height)
  {
  }
}
