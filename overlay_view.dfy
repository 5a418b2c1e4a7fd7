/** `FaceLandmarksOverlayView`: keeps the latest faces scaled to preview
    pixels and, on every redraw, draws each face's bound and the polylines of
    its landmark parts. Canvas calls are modelled as a list of draw calls. */
module FaceLandmarksOverlayView {
  import opened JavaInt
  import opened DLibFace68

  /** The base stroke width in density-independent pixels. */
  const WIDTH: real := 2.0

  /** `canvas.drawRect(bound, paint)` and `canvas.drawLine(from, to, paint)`. */
  datatype DrawOp = DrawRect(bound: RectF) | DrawLine(from: Landmark, to: Landmark)

  /** The draw calls of (part of) a redraw, and whether a subset getter threw
      (`subList` out of bounds) after them, ending the redraw. */
  datatype Drawing = Drawing(ops: seq<DrawOp>, threw: bool)

  /** Drawing a, then, unless a threw, drawing b. */
  function Then(a: Drawing, b: Drawing): Drawing
  {
    if a.threw then a else Drawing(a.ops + b.ops, b.threw)
  }

  lemma ThenAssociative(a: Drawing, b: Drawing, c: Drawing)
    ensures Then(Then(a, b), c) == Then(a, Then(b, c))
  {
    if !a.threw && !b.threw {
      assert (a.ops + b.ops) + c.ops == a.ops + (b.ops + c.ops);
    }
  }

  /** Draw calls that are all `drawLine`s. */
  predicate AllLines(ops: seq<DrawOp>)
  {
    forall k :: 0 <= k < |ops| ==> ops[k].DrawLine?
  }

  lemma AllLinesAppend(a: seq<DrawOp>, b: seq<DrawOp>)
    requires AllLines(a) && AllLines(b)
    ensures AllLines(a + b)
  {
    forall k | 0 <= k < |a + b| ensures (a + b)[k].DrawLine? {
      if k >= |a| { assert (a + b)[k] == b[k - |a|]; }
    }
  }

  /** What the iterations k = 1 .. m - 1 of a part's loop draw: the segment
      (p[k - 1], p[k]) and, for a closed part, after the segment that ends at
      the last point, the one back to p[0]. */
  function SegmentsUpTo(p: seq<Landmark>, closed: bool, m: nat): (r: seq<DrawOp>)
    requires 1 <= m <= |p|
    ensures |r| == m - 1 + (if closed && m == |p| && m >= 2 then 1 else 0)
    ensures forall k :: 0 <= k < m - 1 ==> r[k] == DrawLine(p[k], p[k + 1])
    ensures closed && m == |p| && m >= 2 ==> r[|r| - 1] == DrawLine(p[|p| - 1], p[0])
    ensures AllLines(r)
  {
    if m == 1 then []
    else
      var k := m - 1;
      SegmentsUpTo(p, closed, k)
      + [DrawLine(p[k - 1], p[k])]
      + (if closed && k == |p| - 1 then [DrawLine(p[k], p[0])] else [])
  }

  /** The segments of one part: n - 1 consecutive segments, plus the closing
      one for a closed part of at least two points. */
  function PartSegments(p: seq<Landmark>, closed: bool): (r: seq<DrawOp>)
    ensures |r| == if |p| >= 2 then |p| - 1 + (if closed then 1 else 0) else 0
    ensures forall k :: 0 <= k < |p| - 1 ==> r[k] == DrawLine(p[k], p[k + 1])
    ensures closed && |p| >= 2 ==> r[|p| - 1] == DrawLine(p[|p| - 1], p[0])
    ensures AllLines(r)
  {
    if |p| == 0 then [] else SegmentsUpTo(p, closed, |p|)
  }

  /** The order in which a pass draws the parts, and which are closed loops. */
  const DRAW_ORDER: seq<(FacePart, bool)> :=
    [(Chin, false), (LeftEyebrow, false), (RightEyebrow, false), (LeftEye, true),
     (RightEye, true), (Nose, false), (InnerLips, true), (OuterLips, true)]

  /** One part within a pass: its getter throws, or its segments are drawn. */
  function PartDrawing(face: FaceData, part: FacePart, closed: bool): Drawing
  {
    if |face.landmarks| <= EndIndex(part) then Drawing([], true)
    else Drawing(PartSegments(face.PartLandmarks(part), closed), false)
  }

  /** The given parts of a pass, in order. */
  function PartsDrawing(face: FaceData, order: seq<(FacePart, bool)>): Drawing
  {
    if order == [] then Drawing([], false)
    else Then(PartDrawing(face, order[0].0, order[0].1), PartsDrawing(face, order[1..]))
  }

  /** One pass of the landmark block: all eight parts. */
  function LandmarkBlock(face: FaceData): Drawing
  {
    PartsDrawing(face, DRAW_ORDER)
  }

  /** The passes j .. n - 1 (the block runs once per landmark). */
  function PassesFrom(face: FaceData, j: nat): Drawing
    decreases |face.landmarks| - j
  {
    if j >= |face.landmarks| then Drawing([], false)
    else Then(LandmarkBlock(face), PassesFrom(face, j + 1))
  }

  /** One face: its bound, then the landmark block once per landmark. */
  function FaceDrawing(face: FaceData): Drawing
  {
    Then(Drawing([DrawRect(face.bound)], false), PassesFrom(face, 0))
  }

  /** All the faces, in list order. */
  function FacesDrawing(faces: seq<FaceData>): Drawing
  {
    if faces == [] then Drawing([], false)
    else Then(FaceDrawing(faces[0]), FacesDrawing(faces[1..]))
  }

  /** The number of segments a part draws on a face of 68 points: n - 1
      for an open part of n points, n for a closed one. */
  function PartOps(part: FacePart, closed: bool): nat
  {
    EndIndex(part) - StartIndex(part) + (if closed then 1 else 0)
  }

  function RemainingOps(order: seq<(FacePart, bool)>): nat
  {
    if order == [] then 0 else PartOps(order[0].0, order[0].1) + RemainingOps(order[1..])
  }

  /** One part's getter throws exactly when the face is too short for the
      part's last index; otherwise it draws `PartOps` lines. */
  lemma PartDrawingCount(face: FaceData, part: FacePart, closed: bool)
    ensures PartDrawing(face, part, closed).threw <==> |face.landmarks| <= EndIndex(part)
    ensures !PartDrawing(face, part, closed).threw ==> |PartDrawing(face, part, closed).ops| == PartOps(part, closed)
    ensures AllLines(PartDrawing(face, part, closed).ops)
  {
    PartRanges(part);
  }

  lemma {:induction false} PartsDrawingCount(face: FaceData, order: seq<(FacePart, bool)>)
    ensures (forall i :: 0 <= i < |order| ==> EndIndex(order[i].0) < |face.landmarks|) ==>
              !PartsDrawing(face, order).threw && |PartsDrawing(face, order).ops| == RemainingOps(order)
    ensures (exists i :: 0 <= i < |order| && EndIndex(order[i].0) >= |face.landmarks|) ==>
              PartsDrawing(face, order).threw
    ensures AllLines(PartsDrawing(face, order).ops)
  {
    if order != [] {
      PartDrawingCount(face, order[0].0, order[0].1);
      PartsDrawingCount(face, order[1..]);
      var d := PartDrawing(face, order[0].0, order[0].1);
      if !d.threw {
        AllLinesAppend(d.ops, PartsDrawing(face, order[1..]).ops);
      }
      if exists i :: 0 <= i < |order| && EndIndex(order[i].0) >= |face.landmarks| {
        var i :| 0 <= i < |order| && EndIndex(order[i].0) >= |face.landmarks|;
        if i > 0 { assert order[1..][i - 1] == order[i]; }
      }
      assert forall i :: 0 <= i < |order| - 1 ==> order[1..][i] == order[i + 1];
    }
  }

  /** The eight parts draw 63 segments together; their largest index is the
      inner lips' 67. */
  lemma DrawOrderCounts()
    ensures RemainingOps(DRAW_ORDER) == 63
    ensures forall i :: 0 <= i < |DRAW_ORDER| ==> EndIndex(DRAW_ORDER[i].0) <= 67
    ensures |DRAW_ORDER| > 6 && EndIndex(DRAW_ORDER[6].0) == 67
  {
    var o := DRAW_ORDER;
    assert RemainingOps(o[8..]) == 0;
    assert RemainingOps(o[7..]) == 12 by { assert o[7..][1..] == o[8..]; }
    assert RemainingOps(o[6..]) == 20 by { assert o[6..][1..] == o[7..]; }
    assert RemainingOps(o[5..]) == 27 by { assert o[5..][1..] == o[6..]; }
    assert RemainingOps(o[4..]) == 33 by { assert o[4..][1..] == o[5..]; }
    assert RemainingOps(o[3..]) == 39 by { assert o[3..][1..] == o[4..]; }
    assert RemainingOps(o[2..]) == 43 by { assert o[2..][1..] == o[3..]; }
    assert RemainingOps(o[1..]) == 47 by { assert o[1..][1..] == o[2..]; }
    assert o[0..] == o;
  }

  /** A pass throws exactly when the face has fewer than 68 landmarks (the
      inner lips' getter needs index 67); otherwise it draws
      16 + 4 + 4 + 6 + 6 + 7 + 8 + 12 = 63 segments, all lines. */
  lemma LandmarkBlockCount(face: FaceData)
    ensures LandmarkBlock(face).threw <==> |face.landmarks| < 68
    ensures !LandmarkBlock(face).threw ==> |LandmarkBlock(face).ops| == 63
    ensures AllLines(LandmarkBlock(face).ops)
  {
    PartsDrawingCount(face, DRAW_ORDER);
    DrawOrderCounts();
  }

  /** On a face of at least 68 landmarks the passes j .. n - 1 draw 63 lines
      each and never throw. */
  lemma {:induction false} PassesCount(face: FaceData, j: nat)
    requires |face.landmarks| >= 68 && j <= |face.landmarks|
    ensures !PassesFrom(face, j).threw
    ensures |PassesFrom(face, j).ops| == 63 * (|face.landmarks| - j)
    ensures AllLines(PassesFrom(face, j).ops)
    decreases |face.landmarks| - j
  {
    if j < |face.landmarks| {
      LandmarkBlockCount(face);
      PassesCount(face, j + 1);
      var b := LandmarkBlock(face);
      var rest := PassesFrom(face, j + 1);
      assert PassesFrom(face, j) == Drawing(b.ops + rest.ops, false);
      AllLinesAppend(b.ops, rest.ops);
    } else {
      assert PassesFrom(face, j) == Drawing([], false);
    }
  }

  /** A face's drawing throws exactly when it has between 1 and 67
      landmarks; otherwise it is its bound, drawn once and first, followed by
      63 lines per landmark. */
  lemma FaceDrawingCount(face: FaceData)
    ensures FaceDrawing(face).threw <==> 0 < |face.landmarks| < 68
    ensures |FaceDrawing(face).ops| > 0 && FaceDrawing(face).ops[0] == DrawRect(face.bound)
    ensures !FaceDrawing(face).threw ==>
              |FaceDrawing(face).ops| == 1 + 63 * |face.landmarks| && AllLines(FaceDrawing(face).ops[1..])
  {
    var n := |face.landmarks|;
    if n == 0 {
      assert PassesFrom(face, 0) == Drawing([], false);
      assert [DrawRect(face.bound)] + [] == [DrawRect(face.bound)];
    } else if n < 68 {
      LandmarkBlockCount(face);
    } else {
      PassesCount(face, 0);
      var rest := PassesFrom(face, 0);
      assert ([DrawRect(face.bound)] + rest.ops)[1..] == rest.ops;
    }
  }

  lemma FacesDrawingStep(faces: seq<FaceData>, i: nat)
    requires i < |faces|
    ensures FacesDrawing(faces[i..]) == Then(FaceDrawing(faces[i]), FacesDrawing(faces[i + 1..]))
  {
    assert faces[i..][1..] == faces[i + 1..];
  }

  /** The draw calls when no face has between 1 and 67 landmarks. */
  function OpCount(faces: seq<FaceData>): nat
  {
    if faces == [] then 0 else 1 + 63 * |faces[0].landmarks| + OpCount(faces[1..])
  }

  /** A redraw throws exactly when some face has between 1 and 67
      landmarks; otherwise it draws each face's bound and 63 lines per
      landmark. */
  lemma {:induction false} FacesDrawingCount(faces: seq<FaceData>)
    ensures FacesDrawing(faces).threw <==> exists i :: 0 <= i < |faces| && 0 < |faces[i].landmarks| < 68
    ensures !FacesDrawing(faces).threw ==> |FacesDrawing(faces).ops| == OpCount(faces)
  {
    if faces != [] {
      FaceDrawingCount(faces[0]);
      FacesDrawingCount(faces[1..]);
      assert forall i :: 0 <= i < |faces| - 1 ==> faces[1..][i] == faces[i + 1];
      if exists i :: 0 <= i < |faces| && 0 < |faces[i].landmarks| < 68 {
        var i :| 0 <= i < |faces| && 0 < |faces[i].landmarks| < 68;
        if i > 0 {
          assert 0 < |faces[1..][i - 1].landmarks| < 68;
        }
      }
    }
  }

  /** Every face scaled by (sx, sy), in order. */
  function ScaleAll(faces: seq<FaceData>, sx: real, sy: real): (r: seq<FaceData>)
    ensures |r| == |faces|
    ensures forall i :: 0 <= i < |r| ==> r[i] == ScaleFace(faces[i], sx, sy)
  {
    if faces == [] then [] else ScaleAll(faces[..|faces| - 1], sx, sy) + [ScaleFace(faces[|faces| - 1], sx, sy)]
  }

  /** `Math.min(viewWidth / width, viewHeight / height)`. */
  function FitScale(width: int, height: int, viewWidth: int, viewHeight: int): real
    requires width != 0 && height != 0
  {
    Min(viewWidth as real / width as real, viewHeight as real / height as real)
  }

  /** The scale fits the preview inside the view: neither side overflows,
      and one side fills the view exactly. */
  lemma FitScaleFitsInside(width: int, height: int, viewWidth: int, viewHeight: int)
    requires width > 0 && height > 0
    ensures FitScale(width, height, viewWidth, viewHeight) * width as real <= viewWidth as real
    ensures FitScale(width, height, viewWidth, viewHeight) * height as real <= viewHeight as real
    ensures FitScale(width, height, viewWidth, viewHeight) * width as real == viewWidth as real ||
            FitScale(width, height, viewWidth, viewHeight) * height as real == viewHeight as real
  {
    var sw := viewWidth as real / width as real;
    var sh := viewHeight as real / height as real;
    assert sw * width as real == viewWidth as real;
    assert sh * height as real == viewHeight as real;
    if sw <= sh {
      assert sw * height as real <= sh * height as real;
    } else {
      assert sh * width as real <= sw * width as real;
    }
  }

  /** What one redraw produces: the canvas scale, the paint's stroke width
      and the draw calls. */
  datatype Rendering = Rendering(scale: real, strokeWidth: real, drawing: Drawing)

  /** The lines of one part (the innermost `for k` loop). */
  method DrawPart(p: seq<Landmark>, closed: bool) returns (ops: seq<DrawOp>)
    ensures ops == PartSegments(p, closed)
  {
    ops := [];
    var k := 1;
    while k < |p|
      invariant 1 <= k && (|p| > 0 ==> k <= |p|)
      invariant |p| > 0 ==> ops == SegmentsUpTo(p, closed, k)
      invariant |p| == 0 ==> ops == []
    {
      ops := ops + [DrawLine(p[k - 1], p[k])];
      if closed && k == |p| - 1 {
        ops := ops + [DrawLine(p[k], p[0])];
      }
      k := k + 1;
    }
  }

  /** One pass of the landmark block: the eight parts in drawing order,
      stopping at the first getter that throws. */
  method DrawLandmarkBlock(face: FaceData) returns (d: Drawing)
    ensures d == LandmarkBlock(face)
  {
    var ops: seq<DrawOp> := [];
    for m := 0 to |DRAW_ORDER|
      invariant Then(Drawing(ops, false), PartsDrawing(face, DRAW_ORDER[m..])) == LandmarkBlock(face)
    {
      var (part, closed) := DRAW_ORDER[m];
      assert DRAW_ORDER[m..][1..] == DRAW_ORDER[m + 1..];
      ThenAssociative(Drawing(ops, false), PartDrawing(face, part, closed), PartsDrawing(face, DRAW_ORDER[m + 1..]));
      if |face.landmarks| <= EndIndex(part) {
        return Drawing(ops, true);
      }
      var segments := DrawPart(face.PartLandmarks(part), closed);
      ops := ops + segments;
    }
    assert DRAW_ORDER[|DRAW_ORDER|..] == [];
    assert ops + [] == ops;
    d := Drawing(ops, false);
  }

  /** One face: the bound, then the block once per landmark. */
  method DrawFace(face: FaceData) returns (d: Drawing)
    ensures d == FaceDrawing(face)
  {
    var ops: seq<DrawOp> := [DrawRect(face.bound)];
    for j := 0 to |face.landmarks|
      invariant Then(Drawing(ops, false), PassesFrom(face, j)) == FaceDrawing(face)
    {
      var block := DrawLandmarkBlock(face);
      ThenAssociative(Drawing(ops, false), block, PassesFrom(face, j + 1));
      ops := ops + block.ops;
      if block.threw {
        return Drawing(ops, true);
      }
    }
    assert ops + [] == ops;
    d := Drawing(ops, false);
  }

  /** The view's state: the stroke width fixed at construction, the preview
      size, the preview-to-view scale and `mFaces`. */
  class OverlayView {
    const strokeWidth: int
    var previewWidth: int
    var previewHeight: int
    var scale: real
    var faces: seq<FaceData>

    /** `mStrokeWidth = (int) (density * WIDTH)`; the scale starts at 1. */
    constructor (density: real)
      ensures strokeWidth == FloatToInt(density * WIDTH)
      ensures previewWidth == 0 && previewHeight == 0 && scale == 1.0 && faces == []
    {
      strokeWidth := FloatToInt(density * WIDTH);
      previewWidth := 0;
      previewHeight := 0;
      scale := 1.0;
      faces := [];
    }

    /** `setCameraPreviewSize(width, height)` in a view of the given size:
        stores the size and the fit-inside scale. */
    method SetCameraPreviewSize(width: int, height: int, viewWidth: int, viewHeight: int)
      requires width != 0 && height != 0
      modifies this
      ensures previewWidth == width && previewHeight == height
      ensures scale == FitScale(width, height, viewWidth, viewHeight)
      ensures faces == old(faces)
    {
      previewWidth := width;
      previewHeight := height;
      scale := FitScale(width, height, viewWidth, viewHeight);
    }

    /** `setFaces`: the list becomes the given faces, each scaled from
        normalised coordinates to preview pixels. */
    method SetFaces(newFaces: seq<FaceData>)
      modifies this
      ensures faces == ScaleAll(newFaces, previewWidth as real, previewHeight as real)
      ensures previewWidth == old(previewWidth) && previewHeight == old(previewHeight) && scale == old(scale)
    {
      faces := [];
      for i := 0 to |newFaces|
        invariant faces == ScaleAll(newFaces[..i], previewWidth as real, previewHeight as real)
        invariant previewWidth == old(previewWidth) && previewHeight == old(previewHeight) && scale == old(scale)
      {
        assert newFaces[..i + 1][..i] == newFaces[..i];
        faces := faces + [ScaleFace(newFaces[i], previewWidth as real, previewHeight as real)];
      }
      assert newFaces[..|newFaces|] == newFaces;
    }

    /** `onDrawForeground`: the canvas is scaled by the view scale, the
        stroke is divided by it so that it keeps its width on screen, and
        the faces are drawn in order. */
    method DrawForeground() returns (r: Rendering)
      requires scale != 0.0
      ensures r.scale == scale
      ensures r.strokeWidth * scale == strokeWidth as real
      ensures r.drawing == FacesDrawing(faces)
    {
      var stroke := strokeWidth as real / scale;
      var ops: seq<DrawOp> := [];
      for i := 0 to |faces|
        invariant Then(Drawing(ops, false), FacesDrawing(faces[i..])) == FacesDrawing(faces)
      {
        var d := DrawFace(faces[i]);
        FacesDrawingStep(faces, i);
        ThenAssociative(Drawing(ops, false), d, FacesDrawing(faces[i + 1..]));
        ops := ops + d.ops;
        if d.threw {
          return Rendering(scale, stroke, Drawing(ops, true));
        }
      }
      assert faces[|faces|..] == [];
      assert ops + [] == ops;
      r := Rendering(scale, stroke, Drawing(ops, false));
    }
  }
}
