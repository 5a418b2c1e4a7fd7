/** `VisionFaceAndDLibLandmarksDetector`: faces found by the Google Vision
    detector, turned into integer rectangles the dlib landmarks detector
    accepts, then the landmarks detector's faces re-keyed 0..n-1. */
module VisionFaceAndDLibLandmarksDetector {
  import opened JavaInt
  import opened Wrappers
  import opened DLibFace68
  import opened DetectorCommon

  /** A Vision `Face`: `getPosition()` and the size, as floats. */
  datatype VisionFace = VisionFace(x: real, y: real, width: real, height: real)

  /** `android.graphics.Rect`. */
  datatype Rect = Rect(left: int, top: int, right: int, bottom: int)

  function Width(r: Rect): int { r.right - r.left }
  function Height(r: Rect): int { r.bottom - r.top }

  /** `Rect.inset(dx, dy)`: every edge moved inwards. */
  function Inset(r: Rect, dx: int, dy: int): Rect
  {
    Rect(r.left + dx, r.top + dy, r.right - dx, r.bottom - dy)
  }

  /** `Rect.offset(dx, dy)`: the rectangle moved. */
  function Offset(r: Rect, dx: int, dy: int): Rect
  {
    Rect(r.left + dx, r.top + dy, r.right + dx, r.bottom + dy)
  }

  /** The face's left edge in the preview's coordinates: the front camera's
      preview is mirrored, so x is reflected within the upright width. */
  function FaceLeft(face: VisionFace, facingFront: bool, uprightWidth: int): real
  {
    if facingFront then uprightWidth as real - face.x - face.width else face.x
  }

  /** `new Rect((int) x, (int) y, (int) (x + w), (int) (y + h))`. */
  function RawBound(face: VisionFace, facingFront: bool, uprightWidth: int): Rect
  {
    var x := FaceLeft(face, facingFront, uprightWidth);
    Rect(FloatToInt(x), FloatToInt(face.y), FloatToInt(x + face.width), FloatToInt(face.y + face.height))
  }

  /** `inset(width() / 10, height() / 6)` then `offset(0, height() / 4)`, the
      second height being the inset one. */
  function AdjustedBound(raw: Rect): (r: Rect)
    ensures r.left == raw.left + Quot(Width(raw), 10) && r.right == raw.right - Quot(Width(raw), 10)
    ensures var shift := Quot(Height(raw) - 2 * Quot(Height(raw), 6), 4);
            r.top == raw.top + Quot(Height(raw), 6) + shift &&
            r.bottom == raw.bottom - Quot(Height(raw), 6) + shift
  {
    var inset := Inset(raw, Quot(Width(raw), 10), Quot(Height(raw), 6));
    Offset(inset, 0, Quot(Height(inset), 4))
  }

  /** For a well-formed rectangle the adjustment keeps the left and right
      edges inside and the top edge below the original; it shrinks the width
      by twice a tenth and the height by twice a sixth; the bottom edge may
      end one pixel below the original's. */
  lemma AdjustedBoundStaysNear(raw: Rect)
    requires Width(raw) >= 0 && Height(raw) >= 0
    ensures var r := AdjustedBound(raw);
            && raw.left <= r.left <= r.right <= raw.right
            && raw.top <= r.top <= r.bottom <= raw.bottom + 1
            && Width(r) == Width(raw) - 2 * (Width(raw) / 10)
            && Height(r) == Height(raw) - 2 * (Height(raw) / 6)
  {
    var h := Height(raw);
    var q := h / 6;
    assert h - 2 * q == 4 * q + h % 6;
    assert (h - 2 * q) / 4 <= q + 1;
  }

  /** The one pixel happens: a rectangle 4 pixels high keeps its height and
      moves down by one. */
  lemma AdjustedBoundCanLeaveRaw()
    ensures AdjustedBound(Rect(0, 0, 10, 4)) == Rect(1, 1, 9, 5)
  {
  }

  /** The list `faceBounds`: exactly one adjusted rectangle per detected face,
      in the faces' key order. */
  function FaceBounds(faces: seq<VisionFace>, facingFront: bool, uprightWidth: int): (r: seq<Rect>)
    ensures |r| == |faces|
    ensures forall i :: 0 <= i < |r| ==> r[i] == AdjustedBound(RawBound(faces[i], facingFront, uprightWidth))
  {
    if faces == [] then []
    else FaceBounds(faces[..|faces| - 1], facingFront, uprightWidth)
         + [AdjustedBound(RawBound(faces[|faces| - 1], facingFront, uprightWidth))]
  }

  /** The loop of `detect` that fills `faceBounds`, one face at a time in
      key order. */
  method CollectBounds(faces: SparseArray<VisionFace>, facingFront: bool, uprightWidth: int)
    returns (bounds: seq<Rect>)
    ensures bounds == FaceBounds(Values(faces), facingFront, uprightWidth)
  {
    var found := Values(faces);
    bounds := [];
    for i := 0 to |faces|
      invariant bounds == FaceBounds(found[..i], facingFront, uprightWidth)
    {
      var b := AdjustedBound(RawBound(faces[i].value, facingFront, uprightWidth));
      assert found[..i + 1][..i] == found[..i];
      assert FaceBounds(found[..i + 1], facingFront, uprightWidth)
             == FaceBounds(found[..i], facingFront, uprightWidth) + [b];
      bounds := bounds + [b];
    }
    assert found[..|faces|] == found;
  }

  /** The detector: its collaborators (null when absent) and `mDetFaces`.
      The Vision detector maps a frame to its faces; the landmarks detector
      maps face rectangles to faces with landmarks, or fails to parse. */
  class Detector {
    const cameraMetadata: Option<CameraMetadata>
    const faceDetector: Option<FrameMetadata -> SparseArray<VisionFace>>
    const landmarksDetector: Option<seq<Rect> -> Option<seq<FaceData>>>
    var detFaces: SparseArray<FaceData>

    constructor (cameraMetadata: Option<CameraMetadata>,
                 faceDetector: Option<FrameMetadata -> SparseArray<VisionFace>>,
                 landmarksDetector: Option<seq<Rect> -> Option<seq<FaceData>>>)
      ensures this.cameraMetadata == cameraMetadata && this.faceDetector == faceDetector
      ensures this.landmarksDetector == landmarksDetector && detFaces == []
    {
      this.cameraMetadata := cameraMetadata;
      this.faceDetector := faceDetector;
      this.landmarksDetector := landmarksDetector;
      detFaces := [];
    }

    predicate Ready()
      reads this
    {
      cameraMetadata.Some? && faceDetector.Some? && landmarksDetector.Some?
    }

    /** The rectangles handed to the landmarks detector for a frame. */
    function BoundsFor(frame: FrameMetadata): seq<Rect>
      reads this
      requires Ready()
    {
      FaceBounds(Values(faceDetector.value(frame)), cameraMetadata.value.facingFront,
                 UprightPreviewWidth(cameraMetadata.value, frame))
    }

    /** `detect(frame)`. */
    method Detect(frame: FrameMetadata) returns (r: DetectResult)
      modifies this
      ensures !Ready() ==> r == IllegalState && detFaces == old(detFaces)
      ensures Ready() && |faceDetector.value(frame)| == 0 ==> r == Detected([]) && detFaces == []
      ensures Ready() && |faceDetector.value(frame)| > 0 && landmarksDetector.value(BoundsFor(frame)).None? ==>
                r == NullResult && detFaces == []
      ensures Ready() && |faceDetector.value(frame)| > 0 && landmarksDetector.value(BoundsFor(frame)).Some? ==>
                detFaces == Indexed(landmarksDetector.value(BoundsFor(frame)).value) && r == Detected(detFaces)
    {
      if cameraMetadata.None? || faceDetector.None? || landmarksDetector.None? {
        return IllegalState;
      }
      detFaces := [];
      var faces := faceDetector.value(frame);
      if |faces| == 0 {
        return Detected(detFaces);
      }
      var bounds := CollectBounds(faces, cameraMetadata.value.facingFront,
                                  UprightPreviewWidth(cameraMetadata.value, frame));
      var detected := landmarksDetector.value(bounds);
      if detected.None? {
        return NullResult;
      }
      detFaces := Rekey(detected.value);
      return Detected(detFaces);
    }
  }
}
