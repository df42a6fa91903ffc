# ImageCrop geometry engine in Dafny

A model of the pan/zoom geometry of `ImageCrop.js`, with proofs. The script
shows an image under a fixed square crop window of side `size`, centred in a
container. The user pans the image with one finger (or the mouse) and zooms it
with a two-finger pinch. Every change of position hands an area descriptor to
the host's `onChanged` callback.

All coordinates are exact `real`s. The modules follow the parts of the script:

- `BoundsTracker` (`bounds.dfy`): `updateBounds`, the window's edges.
- `ClampedPositioner` (`positioner.dfy`):
  - the clamp of `_updateImgPos`, one axis at a time;
  - the `getAreaInfo` descriptor;
  - the centring and resize proposals.
- `SizingEngine` (`sizing.dfy`):
  - `checkImgWH`;
  - the layout read-back that follows a style write;
  - the sizing step of `_updateImgSize`, both as written and with its recursion guard corrected.
- `Gestures` (`gestures.dfy`): the contact record of `onTouchStart`, the pinch delta and contact swap of `onResizeMove`, and the pan proposal of `onMove`.
- `Orientation` (`orientation.dfy`): `proxyOrientationChange` and `isPortrait`, as a function, its run over a sequence of events, and a class holding the remembered flag.
- `ImageCropEngine` (`image_crop.dfy`):
  - option defaulting;
  - the `ImageCrop` class, whose fields are the instance state and whose methods are the script's methods.
- `Reals` (`reals.dfy`): `Min`, `Max` and `Abs`.
- `Wrappers` (`wrappers.dfy`): `Option`.

## How the model is built

- **Layout.** The browser computes the image's size after each style write (`offsetWidth`/`offsetHeight`). This is modelled by the exact function `SizingEngine.Layout`:
  - a wide image (`imgWgtH`) gets the written width, and a height from the natural aspect ratio;
  - any other image gets the written height, and a width from the height;
  - a negative length is not valid CSS, so the write is dropped and the layout keeps its size.
- **`undefined`.** The script's initial `undefined` sizes are `0.0`. The truthiness test on line 132 becomes `pendingWidth != 0.0`.
- **Non-finite corrections.** When the constrained side is 0, `checkImgWH` divides by zero. The model's result is then `None`: the non-finite length is not valid CSS, so the pending size stays as it is.
- **State.** Each method of `ImageCropEngine.ImageCrop` names in its `modifies` clause the fields the script's method writes, and no others.
  - The committed position `top`/`left` changes only in `CommitPosition` (at touch end and inside `SetImgPos`).
  - The committed size changes only in `CommitSize` (at touch end and inside `SetImgSize`).
- **Invariant.** `Valid()` holds throughout:
  - the window is centred in the container;
  - the read-back keeps the natural aspect ratio;
  - the committed size equals the read-back, because `setImgSize` commits at once.
- **Notifications.** The field `notified` records the descriptors handed to `onChanged`.

## Model

| member | source | states |
|---|---|---|
| BoundsTracker.ComputeBounds | ImageCrop.js:92-99 | the window is `size` wide and high, with equal left/right margins and equal top/bottom margins |
| BoundsTracker.BoundsAreDetermined | ImageCrop.js:92-99 | those side and centring conditions single out the bounds `updateBounds` computes |
| BoundsTracker.ResizeMovesBoundsByHalf | ImageCrop.js:95-96 | a change of container size moves the window's top and left by half that change |
| ClampedPositioner.Clamp | ImageCrop.js:196-207 | an image at least as long as the window covers it after the clamp; a proposal that already covers is kept; a shorter image ends up aligned with the far edge (the second clamp wins) |
| ClampedPositioner.ClampIsProjection | ImageCrop.js:196-207 | when covering is possible, the clamp is the projection of the proposal onto the legal interval |
| ClampedPositioner.ClampIsNearest | ImageCrop.js:196-207 | no legal position is closer to the proposal than the clamped one |
| ClampedPositioner.ClampIsIdempotent | ImageCrop.js:196-207 | clamping a clamped position changes nothing |
| ClampedPositioner.ClampIsMonotonic | ImageCrop.js:196-207 | a larger proposal never gives a smaller position |
| ClampedPositioner.AreaOf | ImageCrop.js:222-230 | the descriptor's top and left are the window's offset from the live position (live position plus offset is the window edge); it carries the size and the committed width and height; its crop square lies inside the image exactly when the image covers the window |
| ClampedPositioner.AreaDeterminesPosition | ImageCrop.js:222-230 | the descriptor determines the live position it was taken from |
| ClampedPositioner.CentredPositionIsLegal | ImageCrop.js:181-187 | the centred proposal of `setImgPos()` covers the window on an axis exactly when the image is at least `size` long there, and is then kept by the clamp |
| ClampedPositioner.ResizeKeepsArea | ImageCrop.js:350-362 | after a resize, a position that covered the old window yields the same descriptor |
| SizingEngine.Layout | ImageCrop.js:138-150 | the written side is honoured, or the layout is unchanged when the written length is negative |
| SizingEngine.LayoutKeepsAspect | ImageCrop.js:138-150 | the read-back is unchanged or has the natural aspect ratio |
| SizingEngine.CheckImgWH | ImageCrop.js:157-174 | result is `None` exactly when the constrained side is 0 and below `size`; the constrained side becomes `max(side, size)`; a proposal that is not short is returned unchanged |
| SizingEngine.CorrectionFormula | ImageCrop.js:161 | the script's `w + w * (size - h) / h` equals `w * size / h` |
| SizingEngine.CorrectionKeepsRatio | ImageCrop.js:157-174 | the correction keeps the proposal's width-to-height ratio |
| SizingEngine.UpdateKeepsAspect | ImageCrop.js:130-155 | sizing never leaves the natural aspect ratio |
| SizingEngine.EitherMatchingSideIsIgnored | ImageCrop.js:132-134 | once a size is set, a correction matching the pending size on EITHER side changes nothing |
| SizingEngine.ReproposingIsNoOp | ImageCrop.js:132-134 | proposing the pending size again changes nothing when it needs no correction |
| SizingEngine.AsWrittenActivation | ImageCrop.js:130-155 | one activation of `_updateImgSize` as written returns exactly when a size is set, and otherwise calls itself with the layout read-back of (w, h) as both the pending size and the new proposal |
| SizingEngine.AsWrittenNeverReturnsOnZeroWidth | ImageCrop.js:132-154 | as written, a read-back width of 0 makes the next activation call itself again with a read-back width of 0 |
| SizingEngine.AsWrittenZeroWidthContainer | ImageCrop.js:121-154 | a 400 by 200 image in a container 0 wide reaches that endless recursion |
| SizingEngine.CheckedUpdate | ImageCrop.js:132-150 | the branch taken once a size is set: the size changes only when the correction is finite and differs from the pending size on BOTH sides, and then the layout-driving side is the corrected one; such a correction with a non-negative driving side always changes the size |
| SizingEngine.UpdateSize | ImageCrop.js:130-155 | the corrected `_updateImgSize`: an activation as written that returns gives this size, and when the first read-back is not 0 wide the one recursive call as written returns this size |
| SizingEngine.ReadBackMeetsMinimum | ImageCrop.js:152-174 | the checked pass over a positive, aspect-correct read-back leaves both sides at least `size` |
| SizingEngine.InitialSizeMeetsMinimum | ImageCrop.js:118-122 | the first sizing at 80% of the container ends with both sides at least `size` and the natural aspect ratio, when the driving container side is positive |
| SizingEngine.InitialSizeScenario | ImageCrop.js:121 | a 400 by 200 image in a 300 by 300 container with a 200 window is sized 400 by 200 |
| SizingEngine.PinchKeepsMinimum | ImageCrop.js:315-318 | a pinch from a size meeting the minimum keeps it, when the constrained side plus the delta stays positive |
| SizingEngine.ShrinkAtMinimumIsIgnored | ImageCrop.js:134 | an image at the minimum on its constrained side ignores a shrinking pinch |
| SizingEngine.GrowingPinchAddsDelta | ImageCrop.js:315-318 | a growing pinch moves the layout-driving side by exactly the delta and keeps the aspect ratio |
| SizingEngine.ExtremePinchBreaksMinimum | ImageCrop.js:306-318 | a pinch delta beyond the constrained side lays the image out narrower than the window (450 by 300, delta -500, width 50) |
| Gestures.Capture | ImageCrop.js:268-280 | the record holds the first contact, plus the second one when exactly two are down, and zeros otherwise |
| Gestures.CaptureStartsGesture | ImageCrop.js:268-280 | after a two-finger touchstart the stored spread is the contacts' own, so holding them still does not zoom; after any other touchstart the second contact is (0, 0), so a later pinch is measured from the page origin; a pan from the start contact proposes the committed position |
| Gestures.PinchDelta | ImageCrop.js:300-314 | the delta is the spread change of larger magnitude, and the vertical one on a tie |
| Gestures.Swapped | ImageCrop.js:327-330 | the stored contacts are touch2 then touch1, and their spread is the current one |
| Gestures.StillFingersDoNotZoom | ImageCrop.js:300-314 | contacts that keep their spread do not zoom |
| Gestures.RepeatedMoveDoesNotZoom | ImageCrop.js:300-330 | a repeated move event with the same contacts zooms no further |
| Gestures.ContactOrderIrrelevant | ImageCrop.js:300-304 | the order of the two contacts does not change the delta or the stored spread |
| Gestures.UniformSpreadZoomsByIt | ImageCrop.js:306-314 | spreading both axes by `k` zooms by `k` |
| Gestures.PanProposal | ImageCrop.js:334-337 | the proposal is the committed position moved by the pointer's displacement from the touchstart contact; the start contact itself proposes the committed position |
| Gestures.PanIsRelativeToStart | ImageCrop.js:333-338 | the pan is measured from the touchstart contact, not from the previous move |
| Orientation.IsPortrait | ImageCrop.js:409-411 | the viewport is portrait exactly when it is taller than wide |
| Orientation.ProxyStep | ImageCrop.js:398-407 | the handler runs exactly when the flag differs from the remembered one, and the flag is remembered |
| Orientation.Forwarded | ImageCrop.js:398-407 | over a run, no more flags are forwarded than events arrive |
| Orientation.Remembered | ImageCrop.js:402-403 | after a run, the remembered flag is the latest event's |
| Orientation.ForwardedFirstDiffers | ImageCrop.js:402 | the first forwarded flag differs from the one remembered before |
| Orientation.ForwardedNeverRepeats | ImageCrop.js:398-407 | the handler never receives the same orientation twice in a row |
| Orientation.ForwardedEndsAtRemembered | ImageCrop.js:398-407 | the last flag the handler received is the current orientation |
| Orientation.OrientationProxy.constructor | ImageCrop.js:398-400 | no flag is remembered at first |
| Orientation.OrientationProxy.Invoke | ImageCrop.js:399-411 | one event: whether it is forwarded and the new remembered flag are `ProxyStep` of the portrait test |
| ImageCropEngine.ResolveOptions | ImageCrop.js:32-51 | each option the caller owns overrides its default (size 200, no circle) |
| ImageCropEngine.NoOptionsGiveDefaults | ImageCrop.js:32-46 | no options give a 200 pixel rectangular window |
| ImageCropEngine.ResolveIsIdempotent | ImageCrop.js:47-51 | passing resolved options back in resolves to the same options |
| ImageCropEngine.ImageCrop.GetAreaInfo | ImageCrop.js:222-230 | the instance's descriptor offsets are `bounds.top` minus the live top and `bounds.left` minus the live left; it carries the window size and the committed width and height; in a valid state its crop square lies inside the image on an axis exactly when the image covers the window there |
| ImageCropEngine.ImageCrop.constructor | ImageCrop.js:29-123 | after load and init, the state is valid, the size is the first `UpdateSize` at 80% of the container, the position is the clamped centre, and one descriptor was emitted |
| ImageCropEngine.ImageCrop.InitImg | ImageCrop.js:118-123 | initImg sizes to 80% of the container and centres, keeping the invariant |
| ImageCropEngine.ImageCrop.UpdateBounds | ImageCrop.js:92-99 | the bounds become `ComputeBounds` of the container |
| ImageCropEngine.ImageCrop.UpdatePendingSize | ImageCrop.js:130-155 | the pending size becomes `UpdateSize` of the old one (or `CheckedUpdate` on the read-back pass) |
| ImageCropEngine.ImageCrop.CommitSize | ImageCrop.js:176-179 | the committed size becomes the pending size |
| ImageCropEngine.ImageCrop.SetImgSize | ImageCrop.js:125-128 | the pending and committed size become `UpdateSize` of the old size, keeping the invariant |
| ImageCropEngine.ImageCrop.UpdateLivePosition | ImageCrop.js:193-215 | each axis of the live position is the `Clamp` of its own proposal; a side at least `size` long covers the window; the new descriptor is appended to the notifications |
| ImageCropEngine.ImageCrop.CommitPosition | ImageCrop.js:217-220 | the committed position becomes the live one |
| ImageCropEngine.ImageCrop.SetImgPos | ImageCrop.js:181-191 | live and committed position are the clamp of the proposal, or of the centred position for an omitted coordinate |
| ImageCropEngine.ImageCrop.OnTouchStart | ImageCrop.js:258-282 | the gesture is started and the contacts are recorded by `Capture` |
| ImageCropEngine.ImageCrop.OnTouchMove | ImageCrop.js:284-295 | nothing changes before a touchstart; two touch contacts pinch: the size becomes `UpdateSize` by the pinch delta, each live coordinate is the clamp of its half-size-change shift and keeps the image's centre when that shift covers the window, and the contacts are stored swapped; any other input pans by the first contact and keeps size and contacts; after a touchstart one descriptor is appended |
| ImageCropEngine.ImageCrop.OnResizeMove | ImageCrop.js:297-331 | the size becomes `UpdateSize` by the pinch delta; each live coordinate is clamped after a shift of minus half the size change, which keeps the image's centre when it covers; the contacts are stored swapped; the committed position is untouched |
| ImageCropEngine.ImageCrop.OnMove | ImageCrop.js:333-339 | the live position is the clamp of the pan proposal; nothing committed changes |
| ImageCropEngine.ImageCrop.OnTouchEnd | ImageCrop.js:341-348 | the live position is committed; the size stays |
| ImageCropEngine.ImageCrop.OnResize | ImageCrop.js:350-362 | the container and bounds are updated; the position is the clamp of the committed one shifted by half the container change; the descriptor is kept when the position covered the old window |
| ImageCropEngine.ImageCrop.OnOrientationEvent | ImageCrop.js:364-366 | the proxy's step is `ProxyStep` of the portrait test; nothing changes unless the event is forwarded; a forwarded event sets the container, commits the clamp of the committed position shifted by half the container change on both axes, and appends one descriptor |
| ImageCropEngine.ImageCrop.Destroy | ImageCrop.js:368-370 | the instance is marked destroyed and no other field changes |

## Left out

- DOM work is not modelled: container and image styling, the mask element of `initCard`, and the `px` strings written to the image's style. The model keeps only the numbers.
- Event plumbing is not modelled: feature detection (`touchEvents`, `prefixPointerEvent`), `initEvents`, `handleEvent`, and every `addEventListener`/`removeEventListener` call, including those in `onTouchStart`, `onTouchEnd` and `destroy`. The handlers are methods called directly. They require `!destroyed`, because after `destroy` the script's handlers would throw on the cleared `container` and `imgStyle`.
- `preventDefault` in `onTouchMove` is not modelled.
- Asynchronous loading is not modelled. The constructor takes the loaded image's natural size, which must be positive, and runs `initCard`'s bounds update and `init` at once.
- The real layout engine and IEEE-754 rounding are replaced by the exact `Layout` function. Sub-pixel differences between the written size and the read-back do not arise.
- The `onChanged` callback's effects are not modelled. Only the descriptors passed to it are recorded.
- `window.innerWidth`/`innerHeight` are parameters. The container size that `updateContainerInfo` reads is a parameter of `OnResize`.
- On a window `resize` event, the script runs `onResize` twice: once directly, and once through the orientation proxy when the flag changed. The model offers the two entry points separately.
- The orientation flag is kept on the prototype's `onOrientationChange` function, so all instances share it. The model passes one `OrientationProxy` object around and does not show that sharing.
- `started` is set at the first touchstart and never cleared, as in the script. `destroy`'s nulling of fields is not modelled.
- Options other than `size` and `circle` are not modelled. `circle` only changes styling. Neither is a type check on option values, which the script does not do either.
- Both sides stay at least `size` only under conditions:
  - at the first sizing, when the container side that drives the layout is positive (`InitialSizeMeetsMinimum`);
  - during a pinch, when the constrained side plus the delta stays positive (`PinchKeepsMinimum`).
  
  `ExtremePinchBreaksMinimum` shows a pinch that breaks it. The model follows the code.
- For a non-positive proposed size the script has no clamp; a negative CSS length is dropped and the model keeps the current layout.
- `getAreaInfo` reports the crop square in display pixels, together with the display size; the model does not convert it to the image's natural pixels.

## Findings

| source | as written | input that shows it | evidently intended | confidence | as-written member | corrected member |
|---|---|---|---|---|---|---|
| ImageCrop.js:132-154 | the recursive call of `_updateImgSize` re-tests `this._imgWidth` for truthiness to decide whether it is the checked pass | a container 0 pixels wide holding a wide image (for example 400 by 200): the read-back width is 0, so every activation takes the unchecked branch again and calls itself, without end | the read-back pass always takes the checked branch, so the function recurses at most once | medium; not executed | SizingEngine.AsWrittenNeverReturnsOnZeroWidth | ImageCropEngine.ImageCrop.UpdatePendingSize |
