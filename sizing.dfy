/**
 * The sizing engine: minimum-size correction (checkImgWH), the layout
 * read-back, and the commit step of _updateImgSize.
 */
module SizingEngine {
  import opened Wrappers
  import opened Reals

  /** A displayed image size, in display pixels. */
  datatype Size = Size(width: real, height: real)

  /** The loaded image's natural size. */
  datatype Image = Image(originWidth: real, originHeight: real) {

    predicate Loaded() {
      originWidth > 0.0 && originHeight > 0.0
    }

    /** imgWgtH, fixed once the image has loaded. */
    predicate WiderThanTall() {
      originWidth > originHeight
    }
  }

  /** `s` has the image's natural aspect ratio. */
  predicate HasAspect(img: Image, s: Size) {
    s.width * img.originHeight == s.height * img.originWidth
  }

  /** Neither side is shorter than the crop window. */
  predicate MeetsMinimum(s: Size, size: real) {
    s.width >= size && s.height >= size
  }

  /**
   * The layout read-back of _updateImgSize (offsetWidth/offsetHeight after the
   * style write). A wide image gets an explicit width and `height: auto`, any
   * other image an explicit height and `width: auto`; the layout keeps the
   * natural aspect ratio exactly. A negative length is not a valid CSS width or
   * height, so the style write is dropped and the layout stays `current`.
   */
  function Layout(img: Image, current: Size, w: real, h: real): (r: Size)
    requires img.Loaded()
    ensures img.WiderThanTall() ==> if w >= 0.0 then r.width == w else r == current
    ensures !img.WiderThanTall() ==> if h >= 0.0 then r.height == h else r == current
  {
    if img.WiderThanTall() then
      if w >= 0.0 then Size(w, w * img.originHeight / img.originWidth) else current
    else
      if h >= 0.0 then Size(h * img.originWidth / img.originHeight, h) else current
  }

  /**
   * checkImgWH: when the constrained side (the height of a wide image, the
   * width of any other) is shorter than the window, it is raised to `size` and
   * the other side scaled by the same factor. `None` stands for the
   * non-finite width or height JavaScript computes when the constrained side
   * is 0. The script writes the scaled side as w + w * (size - h) / h, which
   * in exact arithmetic is w * size / h (CorrectionFormula).
   */
  function CheckImgWH(wider: bool, size: real, w: real, h: real): (r: Option<Size>)
    ensures r.None? <==> (if wider then h == 0.0 < size else w == 0.0 < size)
    ensures (if wider then h >= size else w >= size) ==> r == Some(Size(w, h))
    ensures r.Some? && wider ==> r.value.height == Max(h, size)
    ensures r.Some? && !wider ==> r.value.width == Max(w, size)
  {
    if wider then
      if h < size then
        if h == 0.0 then None else Some(Size(w * size / h, size))
      else Some(Size(w, h))
    else
      if w < size then
        if w == 0.0 then None else Some(Size(size, h * size / w))
      else Some(Size(w, h))
  }

  /** The script's correction w + w * (size - h) / h scales w by size / h. */
  lemma CorrectionFormula(w: real, h: real, size: real)
    requires h != 0.0
    ensures w + w * (size - h) / h == w * size / h
  {
    calc {
      w + w * (size - h) / h;
    ==  { assert w == w * h / h; }
      w * h / h + (w * size - w * h) / h;
    ==
      w * size / h;
    }
  }

  /** checkImgWH keeps the proposal's width-to-height ratio. */
  lemma CorrectionKeepsRatio(wider: bool, size: real, w: real, h: real)
    requires CheckImgWH(wider, size, w, h).Some?
    ensures var c := CheckImgWH(wider, size, w, h).value;
            c.width * h == w * c.height
  {
    if wider && h < size {
      DivTimes(w * size, h);
    } else if !wider && w < size {
      DivTimes(h * size, w);
    }
  }

  /** The layout either keeps the current size or produces the natural aspect ratio. */
  lemma LayoutKeepsAspect(img: Image, current: Size, w: real, h: real)
    requires img.Loaded()
    ensures var r := Layout(img, current, w, h);
            r == current || HasAspect(img, r)
  {
    var W, H := img.originWidth, img.originHeight;
    if img.WiderThanTall() && w >= 0.0 {
      DivTimes(w * H, W);
    } else if !img.WiderThanTall() && h >= 0.0 {
      DivTimes(h * W, H);
    }
  }

  /** Sizing never leaves the natural aspect ratio. */
  lemma UpdateKeepsAspect(img: Image, size: real, pending: Size, w: real, h: real)
    requires img.Loaded() && HasAspect(img, pending)
    ensures HasAspect(img, UpdateSize(img, size, pending, w, h))
    ensures HasAspect(img, CheckedUpdate(img, size, pending, w, h))
  {
    CheckedKeepsAspect(img, size, pending, w, h);
    if pending.width == 0.0 {
      var first := Layout(img, pending, w, h);
      LayoutKeepsAspect(img, pending, w, h);
      CheckedKeepsAspect(img, size, first, first.width, first.height);
    }
  }

  lemma CheckedKeepsAspect(img: Image, size: real, pending: Size, w: real, h: real)
    requires img.Loaded() && HasAspect(img, pending)
    ensures HasAspect(img, CheckedUpdate(img, size, pending, w, h))
  {
    match CheckImgWH(img.WiderThanTall(), size, w, h)
    case None =>
    case Some(c) =>
      LayoutKeepsAspect(img, pending, c.width, c.height);
  }

  /**
   * The branch of _updateImgSize taken once a size is set: correct the
   * proposal, give up when EITHER corrected side equals the pending one (or
   * when the correction is not finite: the comparison fails or not, the style
   * write is dropped, and the read-back returns the pending size), otherwise
   * lay the corrected size out.
   */
  function CheckedUpdate(img: Image, size: real, pending: Size, w: real, h: real): (r: Size)
    requires img.Loaded()
    ensures var c := CheckImgWH(img.WiderThanTall(), size, w, h);
            r != pending ==>
              c.Some? && c.value.width != pending.width && c.value.height != pending.height
              && (if img.WiderThanTall() then r.width == c.value.width else r.height == c.value.height)
    ensures var c := CheckImgWH(img.WiderThanTall(), size, w, h);
            c.Some? && c.value.width != pending.width && c.value.height != pending.height
            && (if img.WiderThanTall() then c.value.width >= 0.0 else c.value.height >= 0.0) ==>
              r != pending
  {
    match CheckImgWH(img.WiderThanTall(), size, w, h)
    case None => pending
    case Some(c) =>
      if c.width == pending.width || c.height == pending.height then pending
      else Layout(img, pending, c.width, c.height)
  }

  /**
   * The pending size after _updateImgSize(w, h), with the recursion guard
   * corrected: while no size is set (the pending width is 0, JavaScript's
   * falsy), lay (w, h) out as given, then run the checked branch on the
   * read-back exactly once. Wherever the script as written returns after at
   * most one recursive call, it returns this size.
   */
  function UpdateSize(img: Image, size: real, pending: Size, w: real, h: real): (r: Size)
    requires img.Loaded()
    ensures var a := AsWrittenActivation(img, size, pending, w, h);
            a.Returns? ==> a == Returns(r)
    ensures var a := AsWrittenActivation(img, size, pending, w, h);
            a.CallsItself? && a.pending.width != 0.0 ==>
              AsWrittenActivation(img, size, a.pending, a.w, a.h) == Returns(r)
  {
    if pending.width != 0.0 then CheckedUpdate(img, size, pending, w, h)
    else
      var first := Layout(img, pending, w, h);
      CheckedUpdate(img, size, first, first.width, first.height)
  }

  /** One call of _updateImgSize as written: it returns, or calls itself on the read-back. */
  datatype Activation = Returns(pending: Size) | CallsItself(pending: Size, w: real, h: real)

  /**
   * _updateImgSize exactly as written: the recursive call tests the pending
   * width for truthiness again instead of knowing it is the read-back pass.
   */
  function AsWrittenActivation(img: Image, size: real, pending: Size, w: real, h: real): (a: Activation)
    requires img.Loaded()
    ensures pending.width != 0.0 <==> a.Returns?
    ensures a.CallsItself? ==>
              a.pending == Layout(img, pending, w, h) && a.w == a.pending.width && a.h == a.pending.height
  {
    if pending.width != 0.0 then Returns(CheckedUpdate(img, size, pending, w, h))
    else
      var first := Layout(img, pending, w, h);
      CallsItself(first, first.width, first.height)
  }

  /**
   * As written, a read-back width of 0 (a wide image in a container of width
   * 0, say) makes the next activation call itself again with a read-back
   * width of 0: the recursion never ends.
   */
  lemma AsWrittenNeverReturnsOnZeroWidth(img: Image, size: real, pending: Size, w: real, h: real)
    requires img.Loaded() && pending.width == 0.0 && HasAspect(img, pending)
    requires Layout(img, pending, w, h).width == 0.0
    ensures var a := AsWrittenActivation(img, size, pending, w, h);
            a.CallsItself? && a.pending.width == 0.0
            && Layout(img, a.pending, a.w, a.h).width == 0.0
  {
    var first := Layout(img, pending, w, h);
    assert HasAspect(img, first);
    if !img.WiderThanTall() {
      assert first.height * img.originWidth == 0.0;
    }
  }

  /** The concrete case: a 400 by 200 image in a container 0 wide, 300 high. */
  lemma AsWrittenZeroWidthContainer()
    ensures AsWrittenActivation(Image(400.0, 200.0), 200.0, Size(0.0, 0.0), 0.0 * 0.8, 300.0 * 0.8)
            == CallsItself(Size(0.0, 0.0), 0.0, 0.0)
    ensures AsWrittenActivation(Image(400.0, 200.0), 200.0, Size(0.0, 0.0), 0.0, 0.0)
            == CallsItself(Size(0.0, 0.0), 0.0, 0.0)
  {
  }

  lemma MulLe(x: real, y: real, z: real)
    requires x <= y && z >= 0.0
    ensures x * z <= y * z
  {
  }

  lemma LeFromMul(x: real, y: real, z: real)
    requires z > 0.0 && x * z <= y * z
    ensures x <= y
  {
  }

  /** Adding d <= 0 to both sides of f * a == c * b (a <= b) keeps the free side ahead. */
  lemma ShiftDown(f: real, c: real, a: real, b: real, d: real, f1: real, c1: real)
    requires f * a == c * b && d <= 0.0 && a <= b && f1 == f + d && c1 == c + d
    ensures f1 * a >= c1 * b
  {
    assert f1 * a == f * a + d * a;
    assert c1 * b == c * b + d * b;
    assert d * (b - a) <= 0.0;
    assert d * (b - a) == d * b - d * a;
  }

  lemma ShiftUp(f: real, a: real, d: real, f1: real)
    requires d >= 0.0 && a >= 0.0 && f1 == f + d
    ensures f1 * a >= f * a
  {
    assert f1 * a == f * a + d * a;
  }

  lemma DivTimes(x: real, y: real)
    requires y != 0.0
    ensures (x / y) * y == x
  {
  }

  lemma CancelLeft(x: real, y: real, z: real)
    requires x != 0.0 && x * y == x * z
    ensures y == z
  {
    assert x * (y - z) == 0.0;
  }

  /**
   * The constrained side `c` (0 < c < size) is raised to `size` and the free
   * side `f` scaled to f1 = f * size / c. If f * a >= c * b with 0 < a <= b,
   * then f1 and the laid-out constrained side f1 * a / b are at least `size`.
   */
  lemma RaiseAxis(f: real, c: real, a: real, b: real, size: real)
    requires a > 0.0 && b >= a && c > 0.0 && c < size && f * a >= c * b
    ensures f * size / c >= size && (f * size / c) * a / b >= size
  {
    var f1 := f * size / c;
    DivTimes(f * size, c);
    assert f1 * c == f * size;
    MulLe(a, b, c);
    assert f * a >= c * a;
    LeFromMul(c, f, a);
    MulLe(c, f, size);
    assert f1 * c >= size * c;
    LeFromMul(size, f1, c);
    MulLe(c * b, f * a, size);
    assert f1 * a * c == f * a * size;
    assert f1 * a * c >= size * b * c;
    LeFromMul(size * b, f1 * a, c);
    DivTimes(f1 * a, b);
    assert (f1 * a / b) * b >= size * b;
    LeFromMul(size, f1 * a / b, b);
  }

  /** A free side with f * a >= size * b (0 < a <= b, size >= 0) lays out with both sides at least `size`. */
  lemma KeptAxis(f: real, a: real, b: real, size: real)
    requires a > 0.0 && b >= a && f * a >= size * b
    ensures f * a / b >= size && (size >= 0.0 ==> f >= size)
  {
    DivTimes(f * a, b);
    LeFromMul(size, f * a / b, b);
    if size >= 0.0 {
      MulLe(a, b, size);
      LeFromMul(size, f, a);
    }
  }

  /**
   * The checked pass over an aspect-correct read-back with positive sides
   * leaves both sides at least `size`: the constrained side becomes exactly
   * `size` when it was shorter.
   */
  lemma ReadBackMeetsMinimum(img: Image, size: real, s: Size)
    requires img.Loaded() && HasAspect(img, s) && s.width > 0.0 && s.height > 0.0
    ensures MeetsMinimum(CheckedUpdate(img, size, s, s.width, s.height), size)
  {
    ReadBackMeets(img, size, s, s.width, s.height);
  }

  lemma ReadBackMeets(img: Image, size: real, p: Size, w: real, h: real)
    requires img.Loaded() && p.width == w && p.height == h && w > 0.0 && h > 0.0
    requires w * img.originHeight == h * img.originWidth
    ensures MeetsMinimum(CheckedUpdate(img, size, p, w, h), size)
  {
    if img.WiderThanTall() {
      if h >= size {
        MulLe(size, h, img.originWidth);
      }
      WideCheckedMeets(img, size, p, w, h);
    } else {
      if w >= size {
        MulLe(size, w, img.originHeight);
      }
      TallCheckedMeets(img, size, p, w, h);
    }
  }

  /**
   * The checked pass for a wide image leaves both sides at least `size` when
   * the proposal (w, h) is positive and wide enough for the branch checkImgWH
   * takes (w * H >= h * W when the height is raised, w * H >= size * W when it
   * is kept), and the pending size meets the minimum or is the proposal itself.
   */
  lemma WideCheckedMeets(img: Image, size: real, p: Size, w: real, h: real)
    requires img.Loaded() && img.WiderThanTall() && w > 0.0 && h > 0.0
    requires if h < size then w * img.originHeight >= h * img.originWidth
             else w * img.originHeight >= size * img.originWidth
    requires MeetsMinimum(p, size) || (p.width == w && p.height == h)
    ensures MeetsMinimum(CheckedUpdate(img, size, p, w, h), size)
  {
    if h < size {
      WideRaisedMeets(img, size, p, w, h);
    } else {
      WideKeptMeets(img, size, p, w, h);
    }
  }

  lemma WideRaisedMeets(img: Image, size: real, p: Size, w: real, h: real)
    requires img.Loaded() && img.WiderThanTall() && w > 0.0 && 0.0 < h < size
    requires w * img.originHeight >= h * img.originWidth
    requires MeetsMinimum(p, size) || (p.width == w && p.height == h)
    ensures MeetsMinimum(CheckedUpdate(img, size, p, w, h), size)
  {
    RaiseAxis(w, h, img.originHeight, img.originWidth, size);
    RaisedDiffers(w, h, size);
    var f1 := w * size / h;
    if f1 != p.width && size != p.height {
      WideRaised(img, size, p, w, h);
    }
  }

  lemma WideKeptMeets(img: Image, size: real, p: Size, w: real, h: real)
    requires img.Loaded() && img.WiderThanTall() && w > 0.0 && h >= size
    requires w * img.originHeight >= size * img.originWidth
    requires MeetsMinimum(p, size) || (p.width == w && p.height == h)
    ensures MeetsMinimum(CheckedUpdate(img, size, p, w, h), size)
  {
    KeptAxis(w, img.originHeight, img.originWidth, size);
    WideKept(img, size, p, w, h);
  }

  /** WideCheckedMeets for an image that is not wider than tall; the width is the constrained side. */
  lemma TallCheckedMeets(img: Image, size: real, p: Size, w: real, h: real)
    requires img.Loaded() && !img.WiderThanTall() && w > 0.0 && h > 0.0
    requires if w < size then h * img.originWidth >= w * img.originHeight
             else h * img.originWidth >= size * img.originHeight
    requires MeetsMinimum(p, size) || (p.width == w && p.height == h)
    ensures MeetsMinimum(CheckedUpdate(img, size, p, w, h), size)
  {
    if w < size {
      TallRaisedMeets(img, size, p, w, h);
    } else {
      TallKeptMeets(img, size, p, w, h);
    }
  }

  lemma TallRaisedMeets(img: Image, size: real, p: Size, w: real, h: real)
    requires img.Loaded() && !img.WiderThanTall() && 0.0 < w < size && h > 0.0
    requires h * img.originWidth >= w * img.originHeight
    requires MeetsMinimum(p, size) || (p.width == w && p.height == h)
    ensures MeetsMinimum(CheckedUpdate(img, size, p, w, h), size)
  {
    RaiseAxis(h, w, img.originWidth, img.originHeight, size);
    RaisedDiffers(h, w, size);
    var f1 := h * size / w;
    if f1 != p.height && size != p.width {
      TallRaised(img, size, p, w, h);
    }
  }

  lemma TallKeptMeets(img: Image, size: real, p: Size, w: real, h: real)
    requires img.Loaded() && !img.WiderThanTall() && w >= size && h > 0.0
    requires h * img.originWidth >= size * img.originHeight
    requires MeetsMinimum(p, size) || (p.width == w && p.height == h)
    ensures MeetsMinimum(CheckedUpdate(img, size, p, w, h), size)
  {
    KeptAxis(h, img.originWidth, img.originHeight, size);
    TallKept(img, size, p, w, h);
  }

  /** CheckedUpdate for a wide image whose proposed height is raised to `size`. */
  lemma WideRaised(img: Image, size: real, p: Size, w: real, h: real)
    requires img.Loaded() && img.WiderThanTall() && 0.0 < h < size && w * size / h >= 0.0
    requires w * size / h != p.width && size != p.height
    ensures var r := CheckedUpdate(img, size, p, w, h);
            r.width == w * size / h && r.height == (w * size / h) * img.originHeight / img.originWidth
  {
  }

  /** CheckedUpdate for a tall image whose proposed width is raised to `size`. */
  lemma TallRaised(img: Image, size: real, p: Size, w: real, h: real)
    requires img.Loaded() && !img.WiderThanTall() && 0.0 < w < size && h * size / w >= 0.0
    requires h * size / w != p.height && size != p.width
    ensures var r := CheckedUpdate(img, size, p, w, h);
            r.width == (h * size / w) * img.originWidth / img.originHeight && r.height == h * size / w
  {
  }

  /** CheckedUpdate for a wide image whose proposed height needs no correction. */
  lemma WideKept(img: Image, size: real, p: Size, w: real, h: real)
    requires img.Loaded() && img.WiderThanTall() && h >= size && w >= 0.0
    ensures CheckedUpdate(img, size, p, w, h)
            == if w == p.width || h == p.height then p
               else Size(w, w * img.originHeight / img.originWidth)
  {
  }

  /** CheckedUpdate for a tall image whose proposed width needs no correction. */
  lemma TallKept(img: Image, size: real, p: Size, w: real, h: real)
    requires img.Loaded() && !img.WiderThanTall() && w >= size && h >= 0.0
    ensures CheckedUpdate(img, size, p, w, h)
            == if w == p.width || h == p.height then p
               else Size(h * img.originWidth / img.originHeight, h)
  {
  }

  /** Raising a side c < size to `size` changes the other, positive, side. */
  lemma RaisedDiffers(f: real, c: real, size: real)
    requires f > 0.0 && c > 0.0 && c < size
    ensures f * size / c != f
  {
    DivTimes(f * size, c);
    if f * size / c == f {
      CancelLeft(f, c, size);
    }
  }

  /**
   * initImg's sizing, setImgSize(0.8 * containerWidth, 0.8 * containerHeight)
   * from no size at all, ends with both sides at least `size` and the natural
   * aspect ratio, provided the side that drives the layout is not 0.
   */
  lemma InitialSizeMeetsMinimum(img: Image, size: real, containerWidth: real, containerHeight: real)
    requires img.Loaded()
    requires if img.WiderThanTall() then containerWidth > 0.0 else containerHeight > 0.0
    ensures var s := UpdateSize(img, size, Size(0.0, 0.0), containerWidth * 0.8, containerHeight * 0.8);
            MeetsMinimum(s, size) && HasAspect(img, s)
  {
    FirstPassMeets(img, size, containerWidth * 0.8, containerHeight * 0.8);
    UpdateKeepsAspect(img, size, Size(0.0, 0.0), containerWidth * 0.8, containerHeight * 0.8);
  }

  lemma FirstPassMeets(img: Image, size: real, w: real, h: real)
    requires img.Loaded()
    requires if img.WiderThanTall() then w > 0.0 else h > 0.0
    ensures MeetsMinimum(UpdateSize(img, size, Size(0.0, 0.0), w, h), size)
  {
    var W, H := img.originWidth, img.originHeight;
    var first := Layout(img, Size(0.0, 0.0), w, h);
    if img.WiderThanTall() {
      var h1 := w * H / W;
      DivTimes(w * H, W);
      PosFromMul(h1, W);
      assert first.width == w && first.height == h1;
      ReadBackMeets(img, size, first, w, h1);
    } else {
      var w1 := h * W / H;
      DivTimes(h * W, H);
      PosFromMul(w1, H);
      assert first.width == w1 && first.height == h;
      ReadBackMeets(img, size, first, w1, h);
    }
  }

  lemma PosFromMul(x: real, y: real)
    requires y > 0.0 && x * y > 0.0
    ensures x > 0.0
  {
  }

  /**
   * A 400 by 200 image in a 300 by 300 container with a 200 window is first
   * laid out 240 wide, then raised to 400 by 200.
   */
  lemma InitialSizeScenario()
    ensures UpdateSize(Image(400.0, 200.0), 200.0, Size(0.0, 0.0), 300.0 * 0.8, 300.0 * 0.8)
            == Size(400.0, 200.0)
  {
    var img := Image(400.0, 200.0);
    assert Layout(img, Size(0.0, 0.0), 240.0, 240.0) == Size(240.0, 120.0);
    assert CheckImgWH(true, 200.0, 240.0, 120.0) == Some(Size(400.0, 200.0));
  }

  /**
   * onResizeMove's setImgSize(w + d, h + d) from a size that meets the
   * minimum keeps the minimum, as long as the constrained side plus `d` stays
   * positive.
   */
  lemma PinchKeepsMinimum(img: Image, size: real, current: Size, d: real)
    requires img.Loaded() && size > 0.0 && HasAspect(img, current) && MeetsMinimum(current, size)
    requires if img.WiderThanTall() then current.height + d > 0.0 else current.width + d > 0.0
    ensures MeetsMinimum(UpdateSize(img, size, current, current.width + d, current.height + d), size)
  {
    PinchMeets(img, size, current, current.width, current.height, d);
  }

  lemma PinchMeets(img: Image, size: real, current: Size, cw: real, ch: real, d: real)
    requires img.Loaded() && size > 0.0 && current.width == cw && current.height == ch
    requires cw >= size && ch >= size && cw * img.originHeight == ch * img.originWidth
    requires if img.WiderThanTall() then ch + d > 0.0 else cw + d > 0.0
    ensures MeetsMinimum(CheckedUpdate(img, size, current, cw + d, ch + d), size)
  {
    if img.WiderThanTall() {
      WidePinchMeets(img, size, current, cw, ch, d, cw + d, ch + d);
    } else {
      TallPinchMeets(img, size, current, cw, ch, d, cw + d, ch + d);
    }
  }

  lemma WidePinchMeets(img: Image, size: real, current: Size, cw: real, ch: real, d: real, w: real, h: real)
    requires img.Loaded() && img.WiderThanTall() && size > 0.0 && current.width == cw && current.height == ch
    requires cw >= size && ch >= size && cw * img.originHeight == ch * img.originWidth
    requires h > 0.0 && w == cw + d && h == ch + d
    ensures MeetsMinimum(CheckedUpdate(img, size, current, w, h), size)
  {
    PinchAxis(cw, ch, img.originHeight, img.originWidth, size, d, w, h);
    WideCheckedMeets(img, size, current, w, h);
  }

  lemma TallPinchMeets(img: Image, size: real, current: Size, cw: real, ch: real, d: real, w: real, h: real)
    requires img.Loaded() && !img.WiderThanTall() && size > 0.0 && current.width == cw && current.height == ch
    requires cw >= size && ch >= size && cw * img.originHeight == ch * img.originWidth
    requires w > 0.0 && w == cw + d && h == ch + d
    ensures MeetsMinimum(CheckedUpdate(img, size, current, w, h), size)
  {
    PinchAxis(ch, cw, img.originWidth, img.originHeight, size, d, h, w);
    TallCheckedMeets(img, size, current, w, h);
  }

  /**
   * A pinch by d of an aspect-correct size (free side f, constrained side c,
   * f * a == c * b, 0 < a <= b) that meets the minimum gives a proposal
   * (f1, c1) = (f + d, c + d) fit for the checked pass: both sides positive,
   * and the free side large enough for the branch checkImgWH takes.
   */
  lemma PinchAxis(f: real, c: real, a: real, b: real, size: real, d: real, f1: real, c1: real)
    requires a > 0.0 && b >= a && f * a == c * b && size > 0.0
    requires f >= size && c >= size && c1 > 0.0 && f1 == f + d && c1 == c + d
    ensures f1 > 0.0
    ensures if c1 < size then f1 * a >= c1 * b else f1 * a >= size * b
  {
    if d <= 0.0 {
      ShiftDown(f, c, a, b, d, f1, c1);
      if c1 >= size {
        MulLe(size, c1, b);
      }
      MulPos(c1, b);
      PosFromMul(f1, a);
    } else {
      ShiftUp(f, a, d, f1);
      MulLe(size, c, b);
      assert f1 * a >= size * b;
    }
  }

  lemma MulPos(x: real, y: real)
    requires x > 0.0 && y > 0.0
    ensures x * y > 0.0
  {
  }

  /**
   * The give-up test is an OR: once a size is set, a correction that matches
   * the pending size on either side leaves it unchanged, even when the other
   * side differs.
   */
  lemma EitherMatchingSideIsIgnored(img: Image, size: real, pending: Size, w: real, h: real)
    requires img.Loaded() && pending.width != 0.0
    requires var c := CheckImgWH(img.WiderThanTall(), size, w, h);
             c.Some? && (c.value.width == pending.width || c.value.height == pending.height)
    ensures UpdateSize(img, size, pending, w, h) == pending
  {
  }

  /** Proposing the pending size again changes nothing when it needs no correction. */
  lemma ReproposingIsNoOp(img: Image, size: real, pending: Size)
    requires img.Loaded() && pending.width != 0.0
    requires if img.WiderThanTall() then pending.height >= size else pending.width >= size
    ensures UpdateSize(img, size, pending, pending.width, pending.height) == pending
  {
  }

  /**
   * Because _updateImgSize gives up when EITHER corrected side equals the
   * pending one, an image already at the minimum on its constrained side
   * ignores a shrinking pinch altogether.
   */
  lemma ShrinkAtMinimumIsIgnored(img: Image, size: real, current: Size, d: real)
    requires img.Loaded() && HasAspect(img, current)
    requires if img.WiderThanTall() then current.height == size else current.width == size
    requires -size < d < 0.0
    ensures UpdateSize(img, size, current, current.width + d, current.height + d) == current
  {
    if img.WiderThanTall() {
      assert current.width * img.originHeight == size * img.originWidth > 0.0;
    } else {
      assert current.width == size > 0.0;
    }
  }

  /**
   * A growing pinch with delta d > 0 on a size that meets the minimum moves
   * the layout-driving side by exactly d; the other side follows the aspect ratio.
   */
  lemma GrowingPinchAddsDelta(img: Image, size: real, current: Size, d: real)
    requires img.Loaded() && size > 0.0 && HasAspect(img, current) && MeetsMinimum(current, size)
    requires d > 0.0
    ensures var s := UpdateSize(img, size, current, current.width + d, current.height + d);
            HasAspect(img, s)
            && (if img.WiderThanTall() then s.width == current.width + d else s.height == current.height + d)
  {
    UpdateKeepsAspect(img, size, current, current.width + d, current.height + d);
    GrowingDrivenSide(img, size, current, current.width, current.height, d);
  }

  lemma GrowingDrivenSide(img: Image, size: real, current: Size, cw: real, ch: real, d: real)
    requires img.Loaded() && size > 0.0 && current.width == cw && current.height == ch
    requires cw >= size && ch >= size && d > 0.0
    ensures var s := CheckedUpdate(img, size, current, cw + d, ch + d);
            if img.WiderThanTall() then s.width == cw + d else s.height == ch + d
  {
    if img.WiderThanTall() {
      WideKept(img, size, current, cw + d, ch + d);
    } else {
      TallKept(img, size, current, cw + d, ch + d);
    }
  }

  /**
   * The minimum is not kept when the pinch delta exceeds the constrained
   * side: a 450 by 300 image of a 3:2 picture, pinched by -500, is laid out 50 wide.
   */
  lemma ExtremePinchBreaksMinimum()
    ensures var s := UpdateSize(Image(3.0, 2.0), 200.0, Size(450.0, 300.0), 450.0 - 500.0, 300.0 - 500.0);
            s.width == 50.0 && s.width < 200.0
  {
    assert CheckImgWH(true, 200.0, -50.0, -200.0) == Some(Size(50.0, 200.0));
  }
}
