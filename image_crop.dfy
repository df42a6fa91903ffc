/**
 * The ImageCrop object: its options, its geometric state, and the handlers
 * that move and size the image under a fixed square crop window.
 */
module ImageCropEngine {
  import opened Wrappers
  import opened BoundsTracker
  import opened ClampedPositioner
  import opened SizingEngine
  import opened Gestures
  import opened Orientation

  /** The options object a caller passes; `None` for a key it does not own. */
  datatype UserOptions = UserOptions(size: Option<real>, circle: Option<bool>)

  /** The resolved options: the crop window's side and whether it is drawn as an ellipse. */
  datatype CropOptions = CropOptions(size: real, circle: bool)

  const DefaultSize: real := 200.0

  /** Option defaulting: every key the caller owns overrides its default. */
  function ResolveOptions(user: UserOptions): (o: CropOptions)
    ensures o.size == (if user.size.Some? then user.size.value else DefaultSize)
    ensures o.circle == (user.circle == Some(true))
  {
    CropOptions(user.size.GetOr(DefaultSize), user.circle.GetOr(false))
  }

  /** No options (or an empty object) give a 200 pixel rectangular window. */
  lemma NoOptionsGiveDefaults()
    ensures ResolveOptions(UserOptions(None, None)) == CropOptions(200.0, false)
  {
  }

  /** Passing every resolved option back in resolves to the same options. */
  lemma ResolveIsIdempotent(o: CropOptions)
    ensures ResolveOptions(UserOptions(Some(o.size), Some(o.circle))) == o
  {
  }

  class ImageCrop {
    const options: CropOptions
    /** The loaded image's natural size (originWidth, originHeight; imgWgtH is img.WiderThanTall()). */
    const img: Image

    var containerWidth: real
    var containerHeight: real
    var bounds: Bounds
    /** _imgWidth, _imgHeight: the last layout read-back; 0 before any (JavaScript's undefined). */
    var pendingWidth: real
    var pendingHeight: real
    /** imgWidth, imgHeight: the committed size. */
    var imgWidth: real
    var imgHeight: real
    /** _top, _left: the position written to the image's style. */
    var liveTop: real
    var liveLeft: real
    /** top, left: the committed position a pan starts from. */
    var top: real
    var left: real
    var touchObj: TouchObj
    var started: bool
    var destroyed: bool
    /** The descriptors handed to onChanged, oldest first. */
    var notified: seq<AreaInfo>

    /**
     * The window is centred in the container, the read-back keeps the natural
     * aspect ratio, and the committed size is the read-back (setImgSize
     * commits at once).
     */
    ghost predicate Valid()
      reads this
    {
      img.Loaded()
      && bounds == ComputeBounds(containerWidth, containerHeight, options.size)
      && HasAspect(img, Size(pendingWidth, pendingHeight))
      && imgWidth == pendingWidth && imgHeight == pendingHeight
    }

    function Pending(): Size
      reads this
    {
      Size(pendingWidth, pendingHeight)
    }

    /**
     * getAreaInfo: the window's offset into the image and the committed size.
     * In a valid state the crop square lies inside the image on an axis
     * exactly when the image covers the window there.
     */
    function GetAreaInfo(): (a: AreaInfo)
      reads this
      ensures liveTop + a.top == bounds.top && liveLeft + a.left == bounds.left
      ensures a.size == options.size && a.width == imgWidth && a.height == imgHeight
      ensures Valid() ==>
                (0.0 <= a.top && a.top + a.size <= a.height <==> Covers(liveTop, imgHeight, bounds.top, bounds.bottom))
      ensures Valid() ==>
                (0.0 <= a.left && a.left + a.size <= a.width <==> Covers(liveLeft, imgWidth, bounds.left, bounds.right))
    {
      AreaOf(bounds, liveTop, liveLeft, options.size, imgWidth, imgHeight)
    }

    /**
     * The constructor together with what runs once the image has loaded:
     * options, container size, window bounds (initCard), then initImg, which
     * sizes the image to 80% of the container and centres it.
     */
    constructor(user: UserOptions, containerWidth0: real, containerHeight0: real,
                originWidth: real, originHeight: real)
      requires originWidth > 0.0 && originHeight > 0.0
      ensures Valid()
      ensures options == ResolveOptions(user) && img == Image(originWidth, originHeight)
      ensures containerWidth == containerWidth0 && containerHeight == containerHeight0
      ensures Pending()
              == UpdateSize(img, options.size, Size(0.0, 0.0), containerWidth0 * 0.8, containerHeight0 * 0.8)
      ensures liveTop == top == Clamp((containerHeight - imgHeight) / 2.0, bounds.top, bounds.bottom, imgHeight)
      ensures liveLeft == left == Clamp((containerWidth - imgWidth) / 2.0, bounds.left, bounds.right, imgWidth)
      ensures notified == [GetAreaInfo()]
      ensures !started && !destroyed
    {
      options := ResolveOptions(user);
      img := Image(originWidth, originHeight);
      containerWidth, containerHeight := containerWidth0, containerHeight0;
      bounds := Bounds(0.0, 0.0, 0.0, 0.0);
      pendingWidth, pendingHeight := 0.0, 0.0;
      imgWidth, imgHeight := 0.0, 0.0;
      liveTop, liveLeft, top, left := 0.0, 0.0, 0.0, 0.0;
      touchObj := TouchObj(0.0, 0.0, 0.0, 0.0);
      started, destroyed := false, false;
      notified := [];
      new;
      UpdateBounds();
      InitImg();
    }

    /** initImg: size the image to 80% of the container, then centre it. */
    method InitImg()
      requires Valid()
      modifies this`pendingWidth, this`pendingHeight, this`imgWidth, this`imgHeight
      modifies this`liveTop, this`liveLeft, this`top, this`left, this`notified
      ensures Valid()
      ensures Pending() == UpdateSize(img, options.size, old(Pending()), containerWidth * 0.8, containerHeight * 0.8)
      ensures liveTop == top == Clamp((containerHeight - imgHeight) / 2.0, bounds.top, bounds.bottom, imgHeight)
      ensures liveLeft == left == Clamp((containerWidth - imgWidth) / 2.0, bounds.left, bounds.right, imgWidth)
      ensures notified == old(notified) + [GetAreaInfo()]
    {
      SetImgSize(containerWidth * 0.8, containerHeight * 0.8);
      SetImgPos(None, None);
    }

    /** updateBounds. */
    method UpdateBounds()
      modifies this`bounds
      ensures bounds == ComputeBounds(containerWidth, containerHeight, options.size)
    {
      var t := (containerHeight - options.size) / 2.0;
      var l := (containerWidth - options.size) / 2.0;
      bounds := Bounds(t, l, l + options.size, t + options.size);
    }

    /**
     * _updateImgSize with its recursion guard corrected: `readBack` marks the
     * second pass over a read-back, which takes the checked branch even when
     * the read-back width is 0.
     */
    method UpdatePendingSize(w: real, h: real, readBack: bool)
      requires img.Loaded()
      modifies this`pendingWidth, this`pendingHeight
      ensures Pending() == if readBack then CheckedUpdate(img, options.size, old(Pending()), w, h)
                           else UpdateSize(img, options.size, old(Pending()), w, h)
      decreases if readBack then 0 else 1
    {
      var checked := readBack || pendingWidth != 0.0;
      var proposedWidth, proposedHeight := w, h;
      if checked {
        var corrected := CheckImgWH(img.WiderThanTall(), options.size, w, h);
        if corrected.None? {
          // The non-finite length is not a valid style value; the layout keeps its size.
          return;
        }
        if corrected.value.width == pendingWidth || corrected.value.height == pendingHeight {
          return;
        }
        proposedWidth, proposedHeight := corrected.value.width, corrected.value.height;
      }
      var laidOut := Layout(img, Pending(), proposedWidth, proposedHeight);
      pendingWidth, pendingHeight := laidOut.width, laidOut.height;
      if !checked {
        UpdatePendingSize(pendingWidth, pendingHeight, true);
      }
    }

    /** updateImgSize. */
    method CommitSize()
      modifies this`imgWidth, this`imgHeight
      ensures imgWidth == pendingWidth && imgHeight == pendingHeight
    {
      imgWidth, imgHeight := pendingWidth, pendingHeight;
    }

    /** setImgSize: size the image, then commit the size. */
    method SetImgSize(w: real, h: real)
      requires Valid()
      modifies this`pendingWidth, this`pendingHeight, this`imgWidth, this`imgHeight
      ensures Valid()
      ensures Pending() == UpdateSize(img, options.size, old(Pending()), w, h)
    {
      UpdateKeepsAspect(img, options.size, Pending(), w, h);
      UpdatePendingSize(w, h, false);
      CommitSize();
    }

    /**
     * _updateImgPos: clamp the proposal so the committed size covers the
     * window wherever it can, write it, and hand the new descriptor to onChanged.
     */
    method UpdateLivePosition(proposedTop: real, proposedLeft: real)
      requires Valid()
      modifies this`liveTop, this`liveLeft, this`notified
      ensures Valid()
      ensures liveTop == Clamp(proposedTop, bounds.top, bounds.bottom, imgHeight)
      ensures liveLeft == Clamp(proposedLeft, bounds.left, bounds.right, imgWidth)
      ensures imgHeight >= options.size ==> Covers(liveTop, imgHeight, bounds.top, bounds.bottom)
      ensures imgWidth >= options.size ==> Covers(liveLeft, imgWidth, bounds.left, bounds.right)
      ensures notified == old(notified) + [GetAreaInfo()]
    {
      var t := proposedTop;
      if t > bounds.top {
        t := bounds.top;
      }
      if t + imgHeight < bounds.bottom {
        t := bounds.bottom - imgHeight;
      }
      var l := proposedLeft;
      if l > bounds.left {
        l := bounds.left;
      }
      if l + imgWidth < bounds.right {
        l := bounds.right - imgWidth;
      }
      liveTop, liveLeft := t, l;
      notified := notified + [GetAreaInfo()];
    }

    /** updateImgPos. */
    method CommitPosition()
      modifies this`top, this`left
      ensures top == liveTop && left == liveLeft
    {
      top, left := liveTop, liveLeft;
    }

    /** setImgPos: an omitted coordinate centres the image on that axis. */
    method SetImgPos(proposedTop: Option<real>, proposedLeft: Option<real>)
      requires Valid()
      modifies this`liveTop, this`liveLeft, this`top, this`left, this`notified
      ensures Valid()
      ensures liveTop == top
              == Clamp(proposedTop.GetOr((containerHeight - imgHeight) / 2.0), bounds.top, bounds.bottom, imgHeight)
      ensures liveLeft == left
              == Clamp(proposedLeft.GetOr((containerWidth - imgWidth) / 2.0), bounds.left, bounds.right, imgWidth)
      ensures notified == old(notified) + [GetAreaInfo()]
    {
      var t := proposedTop.GetOr((containerHeight - imgHeight) / 2.0);
      var l := proposedLeft.GetOr((containerWidth - imgWidth) / 2.0);
      UpdateLivePosition(t, l);
      CommitPosition();
    }

    /** onTouchStart: record the contacts a later move is measured against. */
    method OnTouchStart(e: PointerInput)
      requires !destroyed && |Contacts(e)| >= 1
      modifies this`started, this`touchObj
      ensures started && touchObj == Capture(Contacts(e))
    {
      started := true;
      var point := Contacts(e)[0];
      touchObj := TouchObj(point.pageX, point.pageY, 0.0, 0.0);
      if e.TouchInput? && |e.touches| == 2 {
        point := e.touches[1];
        touchObj := touchObj.(secondX := point.pageX, secondY := point.pageY);
      }
    }

    /**
     * onTouchMove: nothing before the first touchstart; a pinch with exactly
     * two contacts, otherwise a pan by the first one.
     */
    method OnTouchMove(e: PointerInput)
      requires Valid() && !destroyed && |Contacts(e)| >= 1
      modifies this`pendingWidth, this`pendingHeight, this`imgWidth, this`imgHeight
      modifies this`liveTop, this`liveLeft, this`notified, this`touchObj
      ensures Valid()
      ensures !started ==> unchanged(this)
      ensures started && |Contacts(e)| == 2 && e.TouchInput? ==>
                var d := PinchDelta(old(touchObj), e.touches[0], e.touches[1]);
                Pending() == UpdateSize(img, options.size, old(Pending()), old(imgWidth) + d, old(imgHeight) + d)
                && touchObj == Swapped(e.touches[0], e.touches[1])
      ensures started && |Contacts(e)| == 2 && e.TouchInput? ==>
                var proposal := old(liveTop) - (imgHeight - old(imgHeight)) / 2.0;
                liveTop == Clamp(proposal, bounds.top, bounds.bottom, imgHeight)
                && (Covers(proposal, imgHeight, bounds.top, bounds.bottom) ==>
                      liveTop + imgHeight / 2.0 == old(liveTop) + old(imgHeight) / 2.0)
      ensures started && |Contacts(e)| == 2 && e.TouchInput? ==>
                var proposal := old(liveLeft) - (imgWidth - old(imgWidth)) / 2.0;
                liveLeft == Clamp(proposal, bounds.left, bounds.right, imgWidth)
                && (Covers(proposal, imgWidth, bounds.left, bounds.right) ==>
                      liveLeft + imgWidth / 2.0 == old(liveLeft) + old(imgWidth) / 2.0)
      ensures started && !(|Contacts(e)| == 2 && e.TouchInput?) ==>
                var proposal := PanProposal(top, left, touchObj, Contacts(e)[0]);
                Pending() == old(Pending()) && touchObj == old(touchObj)
                && liveTop == Clamp(proposal.0, bounds.top, bounds.bottom, imgHeight)
                && liveLeft == Clamp(proposal.1, bounds.left, bounds.right, imgWidth)
      ensures started ==> notified == old(notified) + [GetAreaInfo()]
    {
      if !started {
        return;
      }
      if e.TouchInput? && |e.touches| == 2 {
        OnResizeMove(e.touches[0], e.touches[1]);
      } else {
        OnMove(Contacts(e)[0]);
      }
    }

    /**
     * onResizeMove: zoom both sides by the pinch delta, shift the proposal by
     * half the size change so the image's centre stays put, clamp it, and
     * store the contacts in swapped order.
     */
    method OnResizeMove(touch1: Point, touch2: Point)
      requires Valid() && !destroyed
      modifies this`pendingWidth, this`pendingHeight, this`imgWidth, this`imgHeight
      modifies this`liveTop, this`liveLeft, this`notified, this`touchObj
      ensures Valid()
      ensures var d := PinchDelta(old(touchObj), touch1, touch2);
              Pending() == UpdateSize(img, options.size, old(Pending()), old(imgWidth) + d, old(imgHeight) + d)
      ensures var proposal := old(liveTop) - (imgHeight - old(imgHeight)) / 2.0;
              liveTop == Clamp(proposal, bounds.top, bounds.bottom, imgHeight)
              && (Covers(proposal, imgHeight, bounds.top, bounds.bottom) ==>
                    liveTop + imgHeight / 2.0 == old(liveTop) + old(imgHeight) / 2.0)
      ensures var proposal := old(liveLeft) - (imgWidth - old(imgWidth)) / 2.0;
              liveLeft == Clamp(proposal, bounds.left, bounds.right, imgWidth)
              && (Covers(proposal, imgWidth, bounds.left, bounds.right) ==>
                    liveLeft + imgWidth / 2.0 == old(liveLeft) + old(imgWidth) / 2.0)
      ensures notified == old(notified) + [GetAreaInfo()]
      ensures touchObj == Swapped(touch1, touch2)
    {
      var sizeChanged := PinchDelta(touchObj, touch1, touch2);
      var w, h := imgWidth, imgHeight;
      SetImgSize(w + sizeChanged, h + sizeChanged);
      var widthChange, heightChange := imgWidth - w, imgHeight - h;
      UpdateLivePosition(liveTop - heightChange / 2.0, liveLeft - widthChange / 2.0);
      touchObj := Swapped(touch1, touch2);
    }

    /** onMove: propose the committed position plus the pointer's displacement since touchstart. */
    method OnMove(point: Point)
      requires Valid() && !destroyed
      modifies this`liveTop, this`liveLeft, this`notified
      ensures Valid()
      ensures var proposal := PanProposal(top, left, touchObj, point);
              liveTop == Clamp(proposal.0, bounds.top, bounds.bottom, imgHeight)
              && liveLeft == Clamp(proposal.1, bounds.left, bounds.right, imgWidth)
      ensures notified == old(notified) + [GetAreaInfo()]
    {
      var t := top + (point.pageY - touchObj.firstY);
      var l := left + (point.pageX - touchObj.firstX);
      UpdateLivePosition(t, l);
    }

    /** onTouchEnd: commit the size and the live position. */
    method OnTouchEnd()
      requires Valid() && !destroyed
      modifies this`imgWidth, this`imgHeight, this`top, this`left
      ensures Valid()
      ensures imgWidth == old(imgWidth) && imgHeight == old(imgHeight)
      ensures top == liveTop && left == liveLeft
    {
      CommitSize();
      CommitPosition();
    }

    /**
     * onResize: re-read the container, re-centre the window, and move the
     * committed position by half the container's change.
     */
    method OnResize(newContainerWidth: real, newContainerHeight: real)
      requires Valid() && !destroyed
      modifies this`containerWidth, this`containerHeight, this`bounds
      modifies this`liveTop, this`liveLeft, this`top, this`left, this`notified
      ensures Valid()
      ensures containerWidth == newContainerWidth && containerHeight == newContainerHeight
      ensures liveTop == top == Clamp(old(top) + (containerHeight - old(containerHeight)) / 2.0,
                                      bounds.top, bounds.bottom, imgHeight)
      ensures liveLeft == left == Clamp(old(left) + (containerWidth - old(containerWidth)) / 2.0,
                                        bounds.left, bounds.right, imgWidth)
      ensures Covers(old(top), imgHeight, old(bounds).top, old(bounds).bottom)
              && Covers(old(left), imgWidth, old(bounds).left, old(bounds).right) ==>
                GetAreaInfo() == AreaOf(old(bounds), old(top), old(left), options.size, imgWidth, imgHeight)
      ensures notified == old(notified) + [GetAreaInfo()]
    {
      var w, h := containerWidth, containerHeight;
      var top0, left0 := top, left;
      containerWidth, containerHeight := newContainerWidth, newContainerHeight;
      UpdateBounds();
      var diffW, diffH := containerWidth - w, containerHeight - h;
      SetImgPos(Some(top + diffH / 2.0), Some(left + diffW / 2.0));
      if Covers(top0, imgHeight, old(bounds).top, old(bounds).bottom)
         && Covers(left0, imgWidth, old(bounds).left, old(bounds).right) {
        ResizeKeepsArea(w, h, containerWidth, containerHeight, options.size, top0, left0, imgWidth, imgHeight);
      }
    }

    /**
     * A window orientationchange or resize event through the orientation
     * proxy: onOrientationChange (which is onResize) runs only when the
     * portrait flag changed.
     */
    method OnOrientationEvent(proxy: OrientationProxy, innerWidth: real, innerHeight: real,
                              newContainerWidth: real, newContainerHeight: real)
      returns (forwarded: bool)
      requires Valid() && !destroyed
      modifies proxy
      modifies this`containerWidth, this`containerHeight, this`bounds
      modifies this`liveTop, this`liveLeft, this`top, this`left, this`notified
      ensures Valid()
      ensures (forwarded, proxy.lastOrientation)
              == ProxyStep(old(proxy.lastOrientation), IsPortrait(innerWidth, innerHeight))
      ensures !forwarded ==> unchanged(this)
      ensures forwarded ==>
                containerWidth == newContainerWidth && containerHeight == newContainerHeight
                && liveTop == top && liveLeft == left
                && top == Clamp(old(top) + (containerHeight - old(containerHeight)) / 2.0,
                                bounds.top, bounds.bottom, imgHeight)
                && left == Clamp(old(left) + (containerWidth - old(containerWidth)) / 2.0,
                                 bounds.left, bounds.right, imgWidth)
                && notified == old(notified) + [GetAreaInfo()]
    {
      forwarded := proxy.Invoke(innerWidth, innerHeight);
      if forwarded {
        OnResize(newContainerWidth, newContainerHeight);
      }
    }

    /** destroy: a second call does nothing. */
    method Destroy()
      modifies this`destroyed
      ensures destroyed
    {
      if !destroyed {
        destroyed := true;
      }
    }
  }
}
