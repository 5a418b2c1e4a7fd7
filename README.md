# my-dlib-experiment, modelled in Dafny

This project models the core of the Android demo `my-dlib-experiment`, which
runs dlib's 68-point face-landmark detector on camera frames and draws the
results over the preview. It has two halves.

The Java half has four parts:

- **Camera setup.** The demo activities choose preview and video sizes with
  `chooseOptimalSize`, `chooseVideoSize` and a comparator that orders sizes
  by area. The faces-and-landmarks activity closes and creates capture
  sessions.
- **Camera streams.** Three RxJava observables wrap camera callbacks:
  opening the device, configuring a capture session, and frame-ready
  notifications of an `ImageReader`. Each one has a `DisposableListener`.
- **Detection.** `DLibFace68` is the 68-landmark face. Its eight face-part
  getters are fixed index ranges. Two frame detectors turn detections into
  a re-keyed `SparseArray`: one pairs Google Vision face bounds with dlib
  landmarks, the other uses dlib for both. A `PostProcessor` hands each
  frame's faces to the overlay.
- **Drawing.** `FaceLandmarksOverlayView` scales the faces to the preview
  and chooses the rectangles and line segments it draws.

The native half (C++) has two parts:

- **JNI functions.** `convertBitmapToArray2d` unpacks an RGBA bitmap into a
  dlib image. There are guards that check whether the static dlib detectors
  are ready, and loops that build one face message per detected rectangle.
- **Timing.** `Profiler` keeps a stack of monotonic time stamps.

There is one module per source file. `Sizes`, `JavaInt`, `Camera2`,
`Wrappers` and `DetectorCommon` are shared modules:

- `Sizes` holds the area comparator and `Collections.min`.
- `JavaInt` holds Java's truncating division, the float-to-int casts and
  64-bit wrap-around.
- `Camera2` holds the camera handles and the Rx signals.
- `Wrappers` holds `Option`, which is Java's null.
- `DetectorCommon` holds what both detector files contain: the upright
  preview size, the camera-to-view transform, `SparseArray` and the
  `PostProcessor`.

The DLib detector has its own copies of these at
`DLibFaceAndLandmarksDetector.java` lines 126-145, 174-188 and 210-226. The
table cites the equivalent lines of the Vision detector.

How the source's form is kept:

- **Mutable objects.** Objects whose fields change are Dafny classes: the
  listeners, the camera host, `DLibFace68`, the detectors, the
  post-processor, the overlay view, the JNI environment, the dlib image and
  the profiler. Their methods state the whole new state.
- **Action logs.** Ghost logs record what a listener closes (`closed`), what
  it sends its observer (`emitted`) and what it asks of the reader
  (`readerCalls`).
- **Loops.** The source's loops are `for`/`while` loops proved against
  specification functions: `ScaleLandmarks`, `BoundOf`, `Indexed`,
  `PartSegments`, `FacesDrawing`, `Pixel` and `FacesFor`.
- **Outside calls.** The clock, the camera framework and the dlib and Vision
  detectors are in neither Java nor this project's C++. They become
  parameters.

## Model

| member | source | states |
|---|---|---|
| JavaInt.Wrap64 | demo-dlib/src/main/java/com/my/demo/dlib/SampleOfCamera2ApiActivity1.java:520-521 | a `long` result wraps into the 64-bit range, is congruent to the exact value, and equals it when it fits |
| JavaInt.Quot | demo-dlib/src/main/java/com/my/demo/dlib/detector/VisionFaceAndDLibLandmarksDetector.java:149-151 | Java integer division truncates toward zero: the remainder has the dividend's sign and is smaller than the divisor in magnitude |
| JavaInt.Signum | demo-dlib/src/main/java/com/my/demo/dlib/SampleOfCamera2ApiActivity1.java:520 | `Long.signum` is -1, 0 or 1 with the sign of its argument |
| JavaInt.Trunc | lib-dlib/src/main/cpp/dlib-face-landmarks-detector-jni.cpp:321-324 | a `(long)` cast keeps the integer part: it lies within 1 of the value, on the side of zero |
| JavaInt.FloatToInt | demo-dlib/src/main/java/com/my/demo/dlib/detector/VisionFaceAndDLibLandmarksDetector.java:141-144 | Java's `(int)` cast always gives an `int`: it truncates any value inside the range and saturates at `INT_MAX` above it and at `INT_MIN` below it |
| Sizes.CompareSizesByArea | demo-dlib/src/main/java/com/my/demo/dlib/SampleOfCamera2ApiActivity1.java:516-523 | the comparator as written, with both `long` products and the `long` difference wrapping at 64 bits (the same comparator is at SampleOfFacesAndLandmarksActivity3.java:492-500); `CompareIsSignOfAreaDifference` proves it is the sign of the exact area difference |
| Sizes.CompareIsSignOfAreaDifference | demo-dlib/src/main/java/com/my/demo/dlib/SampleOfCamera2ApiActivity1.java:516-523 | for Java-int sizes the long arithmetic never wraps, so the comparator is exactly the sign of the area difference: negative iff the left area is smaller |
| Sizes.MinByArea | demo-dlib/src/main/java/com/my/demo/dlib/SampleOfCamera2ApiActivity1.java:507 | `Collections.min` by area returns an element whose area is minimal, and it is the first element with that area |
| Camera2ApiActivity.MinSize | demo-dlib/src/main/java/com/my/demo/dlib/SampleOfCamera2ApiActivity1.java:476 | the minimum side is at least 320, is one of 320, width and height, and exceeds 320 only when it is at most both |
| Camera2ApiActivity.BigEnoughOf | demo-dlib/src/main/java/com/my/demo/dlib/SampleOfCamera2ApiActivity1.java:483-494 | `bigEnough` holds exactly the choices with both sides at least the minimum size |
| Camera2ApiActivity.ChooseOptimalSize | demo-dlib/src/main/java/com/my/demo/dlib/SampleOfCamera2ApiActivity1.java:473-514 | an exact match wins; otherwise the result is a big-enough choice of least area; otherwise `choices[0]` |
| FacesAndLandmarksActivity.ChooseVideoSize | demo-dlib/src/main/java/com/my/demo/dlib/SampleOfFacesAndLandmarksActivity3.java:245-253 | returns the first 4:3 size (by Java integer division) that is at most 1080 wide, else the last choice |
| FacesAndLandmarksActivity.FittingOf | demo-dlib/src/main/java/com/my/demo/dlib/SampleOfFacesAndLandmarksActivity3.java:274-279 | `bigEnough` holds exactly the choices with the aspect ratio (by Java integer arithmetic) that are at least width by height |
| FacesAndLandmarksActivity.ChooseOptimalSize | demo-dlib/src/main/java/com/my/demo/dlib/SampleOfFacesAndLandmarksActivity3.java:266-288 | some choice fits: the result is a fitting choice of least area; none fits: `choices[0]` |
| FacesAndLandmarksActivity.CameraHost.constructor | demo-dlib/src/main/java/com/my/demo/dlib/SampleOfFacesAndLandmarksActivity3.java:89-92 | no device, view, preview size or session yet |
| FacesAndLandmarksActivity.CameraHost.CloseCaptureSession | demo-dlib/src/main/java/com/my/demo/dlib/SampleOfFacesAndLandmarksActivity3.java:471-476 | an open session is closed exactly once and forgotten; nothing else changes |
| FacesAndLandmarksActivity.CameraHost.CreateCaptureSession | demo-dlib/src/main/java/com/my/demo/dlib/SampleOfFacesAndLandmarksActivity3.java:397-402 | starts iff a device, an available view and a preview size are all present; a start first closes the old session; a refusal changes nothing |
| FacesAndLandmarksActivity.CloseTwice | demo-dlib/src/main/java/com/my/demo/dlib/SampleOfFacesAndLandmarksActivity3.java:471-476 | closing twice closes the session once and leaves none (idempotence); the device, view, preview size and session requests are unchanged |
| Camera2Observable.DisposableListener.constructor | demo-dlib/src/main/java/com/my/demo/dlib/reactive/Camera2Observable.java:80-82 | not disposed, holds no device, nothing closed or emitted |
| Camera2Observable.DisposableListener.OnOpened | demo-dlib/src/main/java/com/my/demo/dlib/reactive/Camera2Observable.java:85-91 | stores and emits the device whether or not the listener is disposed |
| Camera2Observable.DisposableListener.OnOpenedChecked | demo-dlib/src/main/java/com/my/demo/dlib/reactive/Camera2Observable.java:85-91 | corrected callback: after disposal the device is closed at once and nothing is emitted; it keeps the invariant that a disposed listener holds nothing |
| Camera2Observable.DisposableListener.OnDisconnected | demo-dlib/src/main/java/com/my/demo/dlib/reactive/Camera2Observable.java:94-102 | closes the given device, disposes (closing any held device too), then emits "The camera is disconnected." |
| Camera2Observable.DisposableListener.OnError | demo-dlib/src/main/java/com/my/demo/dlib/reactive/Camera2Observable.java:105-114 | closes the given device, disposes, then emits "The camera error." |
| Camera2Observable.DisposableListener.Dispose | demo-dlib/src/main/java/com/my/demo/dlib/reactive/Camera2Observable.java:117-126 | only the first call closes the held device and forgets it; later calls change nothing |
| Camera2Observable.DisposableListener.IsDisposed | demo-dlib/src/main/java/com/my/demo/dlib/reactive/Camera2Observable.java:129-131 | true exactly once dispose has run |
| Camera2Observable.Subscribe | demo-dlib/src/main/java/com/my/demo/dlib/reactive/Camera2Observable.java:51-60 | an accepted open gives `onSubscribe` only; a caught exception gives `onError` with it only |
| Camera2Observable.DisposeRepeatedly | demo-dlib/src/main/java/com/my/demo/dlib/reactive/Camera2Observable.java:117-126 | any n >= 1 dispose calls close what the first one closes, and nothing more |
| Camera2Observable.EarlyDisposeLeaksDevice | demo-dlib/src/main/java/com/my/demo/dlib/reactive/Camera2Observable.java:85-126 | dispose before `onOpened`: the device is stored in a disposed listener, emitted, and never closed |
| Camera2Observable.EarlyDisposeClosesDevice | demo-dlib/src/main/java/com/my/demo/dlib/reactive/Camera2Observable.java:85-126 | the same schedule with the corrected callback closes the device exactly once and emits nothing after `onSubscribe` |
| Camera2CaptureSessionObservable.DisposableListener.constructor | demo-dlib/src/main/java/com/my/demo/dlib/reactive/Camera2CaptureSessionObservable.java:100-106 | keeps the device and outputs it was given; not disposed, no session |
| Camera2CaptureSessionObservable.DisposableListener.OnConfigured | demo-dlib/src/main/java/com/my/demo/dlib/reactive/Camera2CaptureSessionObservable.java:109-115 | ignored once disposed; otherwise stores the session and emits the blob of device, session and outputs |
| Camera2CaptureSessionObservable.DisposableListener.OnConfigureFailed | demo-dlib/src/main/java/com/my/demo/dlib/reactive/Camera2CaptureSessionObservable.java:118-126 | always closes the given session and forgets the stored one; only a live listener disposes and emits "Fail to configure session." |
| Camera2CaptureSessionObservable.DisposableListener.Dispose | demo-dlib/src/main/java/com/my/demo/dlib/reactive/Camera2CaptureSessionObservable.java:129-138 | only the first call closes the stored session; the listener never closes the camera device |
| Camera2CaptureSessionObservable.DisposableListener.IsDisposed | demo-dlib/src/main/java/com/my/demo/dlib/reactive/Camera2CaptureSessionObservable.java:141-143 | true exactly once dispose has run |
| Camera2CaptureSessionObservable.Subscribe | demo-dlib/src/main/java/com/my/demo/dlib/reactive/Camera2CaptureSessionObservable.java:53-64 | an accepted request gives `onSubscribe`; a caught exception gives `onError` with it |
| Camera2CaptureSessionObservable.DisposeRepeatedly | demo-dlib/src/main/java/com/my/demo/dlib/reactive/Camera2CaptureSessionObservable.java:129-138 | any n >= 1 dispose calls close the stored session at most once |
| Camera2ImageReaderObservable.CloseCount | demo-dlib/src/main/java/com/my/demo/dlib/reactive/Camera2ImageReaderObservable.java:92 | counts the reader's `close()` calls: zero iff the log has none |
| Camera2ImageReaderObservable.DisposableListener.constructor | demo-dlib/src/main/java/com/my/demo/dlib/reactive/Camera2ImageReaderObservable.java:75-79 | keeps the reader; not disposed, nothing logged |
| Camera2ImageReaderObservable.DisposableListener.OnImageAvailable | demo-dlib/src/main/java/com/my/demo/dlib/reactive/Camera2ImageReaderObservable.java:82-86 | once disposed nothing; otherwise exactly one event carrying the callback's reader |
| Camera2ImageReaderObservable.DisposableListener.Dispose | demo-dlib/src/main/java/com/my/demo/dlib/reactive/Camera2ImageReaderObservable.java:89-94 | the first call unregisters the listener and then closes the reader; later calls do nothing |
| Camera2ImageReaderObservable.DisposableListener.IsDisposed | demo-dlib/src/main/java/com/my/demo/dlib/reactive/Camera2ImageReaderObservable.java:97-99 | true exactly once dispose has run |
| Camera2ImageReaderObservable.Subscribe | demo-dlib/src/main/java/com/my/demo/dlib/reactive/Camera2ImageReaderObservable.java:45-51 | registers the listener on the reader, then `onSubscribe` |
| Camera2ImageReaderObservable.SubscribeThenDispose | demo-dlib/src/main/java/com/my/demo/dlib/reactive/Camera2ImageReaderObservable.java:45-94 | register, then any number >= 1 of disposals: unregistered once and closed exactly once |
| DLibFace68.PartRanges | lib-dlib/src/main/java/com/my/jni/dlib/data/DLibFace68.java:30-49 | each part range lies below 68, has 17, 5, 5, 8, 6, 6, 12 or 8 points, and no two parts overlap |
| DLibFace68.FaceData.PartLandmarks | lib-dlib/src/main/java/com/my/jni/dlib/data/DLibFace68.java:128-166 | a subset getter returns the part's size, point k being landmark start+k |
| DLibFace68.PartsCoverFace | lib-dlib/src/main/java/com/my/jni/dlib/data/DLibFace68.java:30-49 | chin, eyebrows, landmark 27, nose, eyes and lips concatenate to exactly the first 68 landmarks |
| DLibFace68.ScaleLandmarks | lib-dlib/src/main/java/com/my/jni/dlib/data/DLibFace68.java:84-90 | scaling keeps the landmark count and order and scales each point by (sx, sy) |
| DLibFace68.ScaleFaceByOne | lib-dlib/src/main/java/com/my/jni/dlib/data/DLibFace68.java:73-75 | the copy constructor's scale (1, 1) changes nothing |
| DLibFace68.ScaleFaceTwice | lib-dlib/src/main/java/com/my/jni/dlib/data/DLibFace68.java:77-91 | scaling twice equals scaling once by the products of the factors |
| DLibFace68.ScaleFaceKeepsParts | lib-dlib/src/main/java/com/my/jni/dlib/data/DLibFace68.java:77-91 | a part of the scaled face is the scaled part |
| DLibFace68.BoundOf | lib-dlib/src/main/java/com/my/jni/dlib/data/DLibFace68.java:98-111 | every landmark lies inside the bound; each edge is a landmark coordinate or still its `Float.MAX_VALUE`/`Float.MIN_VALUE` sentinel |
| DLibFace68.BoundOfFloatLandmarks | lib-dlib/src/main/java/com/my/jni/dlib/data/DLibFace68.java:99-111 | for float landmarks, left and top are always attained; right/bottom are attained exactly when some coordinate reaches `Float.MIN_VALUE`, else stay at it |
| DLibFace68.ScaleEach | lib-dlib/src/main/java/com/my/jni/dlib/data/DLibFace68.java:85-90 | the copy loop produces the scaled landmark list |
| DLibFace68.Face68.FromMessage | lib-dlib/src/main/java/com/my/jni/dlib/data/DLibFace68.java:54-67 | bound and landmarks are exactly the message's |
| DLibFace68.Face68.FromBound | lib-dlib/src/main/java/com/my/jni/dlib/data/DLibFace68.java:69-71 | the given bound and no landmarks |
| DLibFace68.Face68.Copy | lib-dlib/src/main/java/com/my/jni/dlib/data/DLibFace68.java:73-75 | the copy equals the original |
| DLibFace68.Face68.Scaled | lib-dlib/src/main/java/com/my/jni/dlib/data/DLibFace68.java:77-91 | the face is the scaled original, with as many landmarks |
| DLibFace68.Face68.FromLandmarks | lib-dlib/src/main/java/com/my/jni/dlib/data/DLibFace68.java:93-112 | holds the given landmarks and their sentinel-started min/max bound |
| DLibFace68.Face68.SetAllLandmarks | lib-dlib/src/main/java/com/my/jni/dlib/data/DLibFace68.java:118-121 | the landmarks become exactly the given list; the bound is kept |
| DetectorCommon.UprightPreviewWidth | demo-dlib/src/main/java/com/my/demo/dlib/detector/VisionFaceAndDLibLandmarksDetector.java:247-253 | the frame height in portrait mode and the frame width otherwise; `UprightPreviewTransposes` states this with the area kept (DLibFaceAndLandmarksDetector.java:174-180 is the same getter) |
| DetectorCommon.UprightPreviewHeight | demo-dlib/src/main/java/com/my/demo/dlib/detector/VisionFaceAndDLibLandmarksDetector.java:255-261 | the frame width in portrait mode and the frame height otherwise, the transpose of `UprightPreviewWidth` (see `UprightPreviewTransposes`) |
| DetectorCommon.UprightPreviewTransposes | demo-dlib/src/main/java/com/my/demo/dlib/detector/VisionFaceAndDLibLandmarksDetector.java:247-261 | portrait mode swaps the frame's width and height, landscape keeps them; the area is unchanged |
| DetectorCommon.CameraToViewOps | demo-dlib/src/main/java/com/my/demo/dlib/detector/VisionFaceAndDLibLandmarksDetector.java:199-218 | exactly the rotation by 90 times the code, first, iff the code is 90/180/270, and the mirror `(-1, 1)`, last, iff front-facing; there are no other operations, and every scale is that mirror |
| DetectorCommon.FrontCameraMirrorsLast | demo-dlib/src/main/java/com/my/demo/dlib/detector/VisionFaceAndDLibLandmarksDetector.java:213-215 | the front camera's transform is the back camera's followed by negating x |
| DetectorCommon.FrontCameraRotation90 | demo-dlib/src/main/java/com/my/demo/dlib/detector/VisionFaceAndDLibLandmarksDetector.java:201-215 | front camera at ROTATION_90 maps (x, y) to (y, x): rotate then mirror |
| DetectorCommon.Get | demo-dlib/src/main/java/com/my/demo/dlib/detector/VisionFaceAndDLibLandmarksDetector.java:294 | `SparseArray.get` finds a value iff the key is present |
| DetectorCommon.Put | demo-dlib/src/main/java/com/my/demo/dlib/detector/VisionFaceAndDLibLandmarksDetector.java:171 | `put` adds the key, maps it to the value and leaves every other key's value alone |
| DetectorCommon.PutBeyondLast | demo-dlib/src/main/java/com/my/demo/dlib/detector/VisionFaceAndDLibLandmarksDetector.java:171 | a key above every present key is appended at the end |
| DetectorCommon.Indexed | demo-dlib/src/main/java/com/my/demo/dlib/detector/VisionFaceAndDLibLandmarksDetector.java:169-172 | entry i is key i with item i |
| DetectorCommon.Values | demo-dlib/src/main/java/com/my/demo/dlib/detector/VisionFaceAndDLibLandmarksDetector.java:293-295 | the values in key order |
| DetectorCommon.IndexedRoundTrip | demo-dlib/src/main/java/com/my/demo/dlib/detector/VisionFaceAndDLibLandmarksDetector.java:169-172 | the values of the re-keyed array are the list again, and key k maps to item k exactly for 0 <= k < n |
| DetectorCommon.Rekey | demo-dlib/src/main/java/com/my/demo/dlib/detector/VisionFaceAndDLibLandmarksDetector.java:169-172 | the put loop over the cleared array builds the 0..n-1 re-keying |
| DetectorCommon.PostProcessor.constructor | demo-dlib/src/main/java/com/my/demo/dlib/detector/VisionFaceAndDLibLandmarksDetector.java:271-275 | empty list, nothing published |
| DetectorCommon.PostProcessor.ReceiveDetections | demo-dlib/src/main/java/com/my/demo/dlib/detector/VisionFaceAndDLibLandmarksDetector.java:283-299 | clears; null detections publish the empty list, null items publish nothing, else all values are published in key order |
| VisionFaceAndDLibLandmarksDetector.FaceLeft | demo-dlib/src/main/java/com/my/demo/dlib/detector/VisionFaceAndDLibLandmarksDetector.java:115-137 | the face's left edge, reflected within the upright width for the front camera; `FaceBounds` is stated in terms of it |
| VisionFaceAndDLibLandmarksDetector.RawBound | demo-dlib/src/main/java/com/my/demo/dlib/detector/VisionFaceAndDLibLandmarksDetector.java:138-145 | the rect of `(int)` casts of x, y, x + w and y + h, each cast being `FloatToInt`'s saturating truncation; `FaceBounds` adjusts exactly this rect |
| VisionFaceAndDLibLandmarksDetector.AdjustedBound | demo-dlib/src/main/java/com/my/demo/dlib/detector/VisionFaceAndDLibLandmarksDetector.java:149-151 | `inset(w/10, h/6)` then `offset(0, h'/4)` with Java's truncating division |
| VisionFaceAndDLibLandmarksDetector.AdjustedBoundStaysNear | demo-dlib/src/main/java/com/my/demo/dlib/detector/VisionFaceAndDLibLandmarksDetector.java:149-151 | for a non-negative rect the result is narrower by twice w/10 and shorter by twice h/6, lies within the raw rect horizontally and below its top, and its bottom passes the raw bottom by at most 1 |
| VisionFaceAndDLibLandmarksDetector.AdjustedBoundCanLeaveRaw | demo-dlib/src/main/java/com/my/demo/dlib/detector/VisionFaceAndDLibLandmarksDetector.java:149-151 | witness that the bottom can pass the raw bottom: (0,0,10,4) becomes (1,1,9,5) |
| VisionFaceAndDLibLandmarksDetector.FaceBounds | demo-dlib/src/main/java/com/my/demo/dlib/detector/VisionFaceAndDLibLandmarksDetector.java:111-160 | one bound per face, in key order: mirrored for the front camera, cast to int, then adjusted |
| VisionFaceAndDLibLandmarksDetector.CollectBounds | demo-dlib/src/main/java/com/my/demo/dlib/detector/VisionFaceAndDLibLandmarksDetector.java:111-160 | the `faceBounds` loop over the faces in key order builds exactly `FaceBounds` of the detector's values |
| VisionFaceAndDLibLandmarksDetector.Detector.constructor | demo-dlib/src/main/java/com/my/demo/dlib/detector/VisionFaceAndDLibLandmarksDetector.java:59-68 | keeps its collaborators; no faces |
| VisionFaceAndDLibLandmarksDetector.Detector.Detect | demo-dlib/src/main/java/com/my/demo/dlib/detector/VisionFaceAndDLibLandmarksDetector.java:71-192 | a missing collaborator throws; no faces returns the cleared array; a parse failure returns null with the array cleared; otherwise the landmarks faces keyed 0..n-1 |
| DLibFaceAndLandmarksDetector.Detector.constructor | demo-dlib/src/main/java/com/my/demo/dlib/detector/DLibFaceAndLandmarksDetector.java:58-66 | keeps its collaborators; no faces |
| DLibFaceAndLandmarksDetector.Detector.Detect | demo-dlib/src/main/java/com/my/demo/dlib/detector/DLibFaceAndLandmarksDetector.java:68-119 | a missing collaborator throws; a parse failure returns null with the array cleared; otherwise the faces keyed 0..n-1 |
| FaceLandmarksOverlayView.SegmentsUpTo | demo-dlib/src/main/java/com/my/demo/dlib/view/FaceLandmarksOverlayView.java:162-173 | iterations `k = 1 .. m-1` of a part loop: segment k joins points k-1 and k, and a closed part ends with the line back to point 0 after the last point; all are lines |
| FaceLandmarksOverlayView.PartSegments | demo-dlib/src/main/java/com/my/demo/dlib/view/FaceLandmarksOverlayView.java:162-173 | a part of n >= 2 points draws n-1 consecutive lines, plus the closing line from the last point to the first for eyes and lips; fewer points draw nothing |
| FaceLandmarksOverlayView.PartDrawing | demo-dlib/src/main/java/com/my/demo/dlib/view/FaceLandmarksOverlayView.java:133-140 | one part loop: a getter whose end index is past the landmarks throws and draws nothing, else the part's `PartSegments`; `PartDrawingCount` counts it |
| FaceLandmarksOverlayView.PartDrawingCount | demo-dlib/src/main/java/com/my/demo/dlib/view/FaceLandmarksOverlayView.java:134-140 | a part getter throws iff the face has too few landmarks; otherwise the part draws its fixed number of lines |
| FaceLandmarksOverlayView.PartsDrawingCount | demo-dlib/src/main/java/com/my/demo/dlib/view/FaceLandmarksOverlayView.java:134-227 | a run of parts throws iff one of them is out of range, and otherwise draws the sum of their lines |
| FaceLandmarksOverlayView.DrawOrderCounts | demo-dlib/src/main/java/com/my/demo/dlib/view/FaceLandmarksOverlayView.java:134-227 | the eight parts in drawing order draw 63 lines and need landmark index 67 at most, reached by the inner lips |
| FaceLandmarksOverlayView.LandmarkBlockCount | demo-dlib/src/main/java/com/my/demo/dlib/view/FaceLandmarksOverlayView.java:133-227 | one pass over the parts throws iff the face has fewer than 68 landmarks, else draws 63 lines |
| FaceLandmarksOverlayView.PassesCount | demo-dlib/src/main/java/com/my/demo/dlib/view/FaceLandmarksOverlayView.java:132-228 | the passes from j on draw 63 lines each, one pass per landmark |
| FaceLandmarksOverlayView.FaceDrawing | demo-dlib/src/main/java/com/my/demo/dlib/view/FaceLandmarksOverlayView.java:126-228 | one face: its bound rectangle, then one landmark pass per landmark; `FaceDrawingCount` and `DrawFace` are stated against it |
| FaceLandmarksOverlayView.FaceDrawingCount | demo-dlib/src/main/java/com/my/demo/dlib/view/FaceLandmarksOverlayView.java:126-228 | a face draws its bound first; it throws iff it has 1 to 67 landmarks; otherwise 1 + 63n operations, all lines after the rectangle |
| FaceLandmarksOverlayView.FacesDrawing | demo-dlib/src/main/java/com/my/demo/dlib/view/FaceLandmarksOverlayView.java:125-229 | the faces drawn in list order, stopping at the first throw; `FacesDrawingCount` and `DrawForeground` are stated against it |
| FaceLandmarksOverlayView.FacesDrawingCount | demo-dlib/src/main/java/com/my/demo/dlib/view/FaceLandmarksOverlayView.java:125-229 | drawing throws iff some face has 1 to 67 landmarks; otherwise the operation count is the sum over faces |
| FaceLandmarksOverlayView.ScaleAll | demo-dlib/src/main/java/com/my/demo/dlib/view/FaceLandmarksOverlayView.java:99-104 | one scaled face per input face, in order |
| FaceLandmarksOverlayView.FitScale | demo-dlib/src/main/java/com/my/demo/dlib/view/FaceLandmarksOverlayView.java:89-91 | the smaller of the two view-to-preview ratios; `FitScaleFitsInside` proves it fits the preview inside the view and fills one side |
| FaceLandmarksOverlayView.FitScaleFitsInside | demo-dlib/src/main/java/com/my/demo/dlib/view/FaceLandmarksOverlayView.java:89-91 | the min-of-ratios scale fits the preview inside the view and touches one of its sides |
| FaceLandmarksOverlayView.DrawPart | demo-dlib/src/main/java/com/my/demo/dlib/view/FaceLandmarksOverlayView.java:162-173 | the `k` loop emits the part's segments |
| FaceLandmarksOverlayView.DrawLandmarkBlock | demo-dlib/src/main/java/com/my/demo/dlib/view/FaceLandmarksOverlayView.java:133-227 | the eight part loops, stopping at the first getter that throws |
| FaceLandmarksOverlayView.DrawFace | demo-dlib/src/main/java/com/my/demo/dlib/view/FaceLandmarksOverlayView.java:126-228 | the bound, then one landmark pass per landmark |
| FaceLandmarksOverlayView.OverlayView.constructor | demo-dlib/src/main/java/com/my/demo/dlib/view/FaceLandmarksOverlayView.java:65-79 | the stroke width is `(int) (density * 2)`; no preview size, scale 1, no faces |
| FaceLandmarksOverlayView.OverlayView.SetCameraPreviewSize | demo-dlib/src/main/java/com/my/demo/dlib/view/FaceLandmarksOverlayView.java:82-92 | stores the preview size and the fit-inside scale; faces untouched |
| FaceLandmarksOverlayView.OverlayView.SetFaces | demo-dlib/src/main/java/com/my/demo/dlib/view/FaceLandmarksOverlayView.java:95-108 | the list becomes the given faces scaled by the stored preview size |
| FaceLandmarksOverlayView.OverlayView.DrawForeground | demo-dlib/src/main/java/com/my/demo/dlib/view/FaceLandmarksOverlayView.java:111-232 | the canvas scale is the view scale, the stroke divided by it keeps the on-screen width, and the operations are the faces' drawings in order |
| DLibLandmarksJni.LoadWord | lib-dlib/src/main/cpp/dlib-face-landmarks-detector-jni.cpp:69 | the `uint32_t` load is little-endian: byte k of the pixel is bits 8k..8k+7 |
| DLibLandmarksJni.PixelAt | lib-dlib/src/main/cpp/dlib-face-landmarks-detector-jni.cpp:69-73 | the shifts by 24, 16 and 8 take red, green and blue from the pixel's bytes 3, 2 and 1 |
| DLibLandmarksJni.RgbaPixelAt | lib-dlib/src/main/cpp/dlib-face-landmarks-detector-jni.cpp:69-73 | corrected unpacking: red, green and blue from bytes 0, 1 and 2, so any RGBA_8888 pixel reads back as its own colour |
| DLibLandmarksJni.PixelAtMisreadsRgba | lib-dlib/src/main/cpp/dlib-face-landmarks-detector-jni.cpp:69-73 | as written, an RGBA_8888 pixel comes out as (alpha, blue, green); the opaque pixel 11 22 33 comes out with red FF |
| DLibLandmarksJni.PixelOffsetInBuffer | lib-dlib/src/main/cpp/dlib-face-landmarks-detector-jni.cpp:66-76 | every pixel's word at `h*stride + 4w` lies inside the locked buffer |
| DLibLandmarksJni.Pixel | lib-dlib/src/main/cpp/dlib-face-landmarks-detector-jni.cpp:66-76 | the pixel at row h, column w is `PixelAt` of the word at byte `h*stride + 4w`, which `PixelOffsetInBuffer` places inside the buffer; `CopyPixels` fills every pixel with it |
| DLibLandmarksJni.ConversionErrors | lib-dlib/src/main/cpp/dlib-face-landmarks-detector-jni.cpp:47-61 | `getInfo` failure raises only its own exception; otherwise a wrong format, then a lock failure, each raise one; none iff both calls succeed on an RGBA_8888 bitmap |
| DLibLandmarksJni.WrongFormatReadsPastBuffer | lib-dlib/src/main/cpp/dlib-face-landmarks-detector-jni.cpp:51-73 | an RGB_565 bitmap whose calls succeed gets only the format exception and falls outside `WellFormed`; the four-byte read of its second pixel ends past the buffer |
| DLibLandmarksJni.JniEnv.ThrowException | lib-dlib/src/main/cpp/dlib-face-landmarks-detector-jni.cpp:49 | appends exactly the message to the raised exceptions |
| DLibLandmarksJni.Array2d.constructor | lib-dlib/src/main/cpp/dlib-face-landmarks-detector-jni.cpp:162 | a default dlib image is 0 by 0 |
| DLibLandmarksJni.CopyPixels | lib-dlib/src/main/cpp/dlib-face-landmarks-detector-jni.cpp:66-77 | the row loop advances `line` by `stride` and fills every pixel from its word |
| DLibLandmarksJni.CopyRow | lib-dlib/src/main/cpp/dlib-face-landmarks-detector-jni.cpp:68-74 | the column loop fills row h and no other row |
| DLibLandmarksJni.ConvertBitmapToArray2d | lib-dlib/src/main/cpp/dlib-face-landmarks-detector-jni.cpp:40-81 | a failing `getInfo` or `lockPixels` throws and leaves `out` alone; a wrong format throws and carries on; otherwise `out` is height by width with every pixel unpacked, and the lock is released |
| DLibLandmarksJni.Truncated | lib-dlib/src/main/cpp/dlib-face-landmarks-detector-jni.cpp:321-324 | each edge of the dlib rectangle is the `(long)` truncation of the message's edge |
| DLibLandmarksJni.ReadinessError | lib-dlib/src/main/cpp/dlib-face-landmarks-detector-jni.cpp:383-392 | no error iff both detectors are ready; the face detector's error whenever it has no detectors, checked first; the landmarks error only when the face detector is ready |
| DLibLandmarksJni.NativeDetectors.constructor | lib-dlib/src/main/cpp/dlib-face-landmarks-detector-jni.cpp:85-86 | the static detectors start with no detectors and no parts |
| DLibLandmarksJni.NativeDetectors.IsFaceDetectorReady | lib-dlib/src/main/cpp/dlib-face-landmarks-detector-jni.cpp:88-96 | ready iff `num_detectors() > 0` |
| DLibLandmarksJni.NativeDetectors.IsFaceLandmarksDetectorReady | lib-dlib/src/main/cpp/dlib-face-landmarks-detector-jni.cpp:98-106 | ready iff `num_parts() > 0` |
| DLibLandmarksJni.NativeDetectors.PrepareFaceDetector | lib-dlib/src/main/cpp/dlib-face-landmarks-detector-jni.cpp:108-122 | installs the face detector; the landmarks detector is untouched |
| DLibLandmarksJni.NativeDetectors.PrepareFaceLandmarksDetector | lib-dlib/src/main/cpp/dlib-face-landmarks-detector-jni.cpp:124-151 | installs the model whatever its size; throws iff it does not have exactly 68 parts; any non-empty model then counts as ready |
| DLibLandmarksJni.FacesOf | lib-dlib/src/main/cpp/dlib-face-landmarks-detector-jni.cpp:426-454 | one face per rectangle, in order, each with its own bound and the predictor's landmarks for it |
| DLibLandmarksJni.DetectFacesAndLandmarks | lib-dlib/src/main/cpp/dlib-face-landmarks-detector-jni.cpp:379-472 | NULL with exactly one exception iff a detector is not ready (face detector first); otherwise the conversion's exceptions and one face per detection |
| DLibLandmarksJni.DetectLandmarksFromFaces | lib-dlib/src/main/cpp/dlib-face-landmarks-detector-jni.cpp:291-377 | exactly one face per input rect, in input order, bound the truncated rect and landmarks the predictor's for it; no readiness check |
| Profiler.IntervalMs | lib-dlib/src/main/cpp/profiler.cpp:33-34 | `sec*1000 + nsec/10^6` is the nanosecond difference in milliseconds; non-negative iff the clock did not go back, zero iff no time passed |
| Profiler.Profiler.constructor | lib-dlib/src/main/cpp/profiler.cpp:7-9 | a new profiler has an empty stack |
| Profiler.Profiler.Start | lib-dlib/src/main/cpp/profiler.cpp:11-16 | pushes exactly the current time; depth grows by 1 |
| Profiler.Profiler.StopAndGetInterval | lib-dlib/src/main/cpp/profiler.cpp:22-35 | pops exactly the top stamp, measures from it to now, and with a monotonic clock the interval is non-negative |
| Profiler.NestedIntervals | lib-dlib/src/main/cpp/include/my/profiler.h:55-64 | nested start/stop pairs match last-in first-out, the stack ends empty, and an inner interval never exceeds its enclosing one |

## Left out

- RxJava orchestration (`compose` chains, `publish`, `sample`, `CompositeDisposable`) is library behaviour, not code of this repository.
- Concurrency is modelled sequentially. The `AtomicBoolean` compare-and-set and the `synchronized` blocks become plain flags and atomic method calls.
- Camera2, TextureView and Matrix plumbing is not modelled: `configureCamera`, `configureTransform`, `openCamera`, the body of `createCaptureSession` after its guard, `TextureViewObservable` and `getBitmapFromFrame` (YUV to JPEG to Bitmap). These are Android APIs and floating-point matrices; the transform is kept as its list of operations.
- Floats are exact reals. Float rounding and NaN are not modelled. The JNI functions' division of coordinates by the image width and height is not modelled, so native faces are in pixels.
- Java `int` overflow is modelled only in the area comparator, where the source casts to `long` on purpose. Camera sizes and pixel rects elsewhere are unbounded integers.
- `chooseOptimalSize` collects a `tooSmall` list (Activity1) and both copies log sizes. These are only logged, so they are not modelled.
- Logging and `ProfilerUtil` calls inside `detect`, and the `Profiler` calls inside the JNI functions, are not modelled.
- The overlay, the detectors and the post-processor hold faces as values, so aliasing between `DLibFace` objects is not modelled. `DLibFace68` itself is a class.
- The dlib face detector and shape predictor, the Vision face detector, protobuf parsing and serialisation, `throwException` (my/jni.h is not part of this model) and `clock_gettime` are outside code. Their results are parameters.
- `detectFaces` and `detectLandmarksFromFace` in the JNI file are not modelled, because no Java path in the modelled core calls them.
- `Frame.ROTATION_*` are taken as 0..3. Google Play services is not part of this model.
- Camera2ApiActivity.ChooseOptimalSize: requires a non-empty `choices`; the source would throw `ArrayIndexOutOfBoundsException` on `choices[0]`.
- FacesAndLandmarksActivity.ChooseVideoSize: requires a non-empty `choices`; the source would throw on `choices[length - 1]`.
- FacesAndLandmarksActivity.ChooseOptimalSize: requires a non-empty `choices` and a non-zero aspect width; the source would throw `ArrayIndexOutOfBoundsException` or `ArithmeticException`.
- Camera2ApiActivity.ChooseOptimalSize and FacesAndLandmarksActivity.ChooseOptimalSize: do not state which of several sizes of equal least area is returned. `Collections.min` returns the first one; `Sizes.MinByArea` states that.
- FaceLandmarksOverlayView.OverlayView.SetCameraPreviewSize: requires non-zero preview sizes. With a zero size the source's float division gives Infinity or NaN, which reals cannot express.
- FaceLandmarksOverlayView.OverlayView.DrawForeground: requires a non-zero scale. The source's stroke division would give Infinity there.
- DLibLandmarksJni.ConvertBitmapToArray2d: requires that a locked buffer holds `height` rows of `stride >= 4*width` bytes. This holds for the RGBA_8888 bitmaps every caller passes: `BitmapFactory.decodeByteArray` decodes to ARGB_8888 by default (DLibFaceAndLandmarksDetector.java:162-168, VisionFaceAndDLibLandmarksDetector.java:235-241). The NDK itself only promises `stride >= bytes-per-pixel * width`. So the over-read on other formats is outside the conversion method; `DLibLandmarksJni.WrongFormatReadsPastBuffer` exhibits it. Pixel bytes are loaded little-endian, as on Android's processors.
- Profiler.Profiler.StopAndGetInterval: requires a non-empty stack, because `top()` of an empty `std::stack` is undefined.
- Camera2Observable.Subscribe and Camera2CaptureSessionObservable.Subscribe: only the two caught exceptions are modelled. Any other exception propagates out of `subscribeActual`.

Other behaviour the model records but does not treat as a finding:

- `onDisconnected` and `onError` close a device the listener still holds twice: once directly, once through `dispose()`.
- `onConfigured` arriving after `dispose()` is ignored, so that session is never closed by the listener.
- The adjusted face bound's bottom can lie one pixel below the raw bound.
- `prepareFaceLandmarksDetector` keeps a model of the wrong size, so the "ready" check then passes.
- A bitmap that is not RGBA_8888 is reported with "Bitmap format is not RGB_565!", but the conversion does not return. It then reads four bytes per pixel, so an RGB_565 row of `2*width` bytes is read past its end, and the last rows are read past the buffer.

## Findings

| source | as written | input that shows it | evidently intended | confidence | as-written member | corrected member |
|---|---|---|---|---|---|---|
| demo-dlib/src/main/java/com/my/demo/dlib/reactive/Camera2Observable.java:85-91 | `onOpened` stores the device and emits it without checking whether the listener was disposed | `dispose()` while the camera is still opening, then `onOpened(d)`: `d` is stored in a disposed listener, emitted after disposal, and never closed, since `dispose()` does nothing a second time | a device that arrives after disposal is closed at once and not emitted | medium, not executed | Camera2Observable.EarlyDisposeLeaksDevice | Camera2Observable.DisposableListener.OnOpenedChecked |
| lib-dlib/src/main/cpp/dlib-face-landmarks-detector-jni.cpp:69-73 | the RGBA_8888 pixel is read as a little-endian word and red, green and blue are taken from bits 24, 16 and 8 | an opaque pixel with bytes 11 22 33 FF (red 0x11, green 0x22, blue 0x33) comes out with red FF, green 33, blue 22 | red, green and blue from bytes 0, 1 and 2 (bits 0, 8 and 16 of the word) | medium, not executed | DLibLandmarksJni.PixelAtMisreadsRgba | DLibLandmarksJni.RgbaPixelAt |
