/** `DLibFace68`: a detected face as a bound rectangle plus the 68 landmark
    points of dlib's shape predictor, with fixed index ranges per facial
    part. Coordinates are Java `float`s, modelled as exact reals. */
module DLibFace68 {

  /** `Float.MAX_VALUE`, the largest finite `float`: (2 - 2^-23) * 2^127. */
  const FLOAT_MAX: real := 340282346638528859811704183484516925440.0
  /** `Float.MIN_VALUE`, the smallest POSITIVE `float` (2^-149), not the most
      negative one. */
  const FLOAT_MIN: real := 1.0 / 713623846352979940529142984724747568191373312.0

  datatype Landmark = Landmark(x: real, y: real)

  /** `android.graphics.RectF`. */
  datatype RectF = RectF(left: real, top: real, right: real, bottom: real)

  /** A landmark whose coordinates a finite `float` can hold. */
  predicate IsFloatLandmark(l: Landmark)
  {
    -FLOAT_MAX <= l.x <= FLOAT_MAX && -FLOAT_MAX <= l.y <= FLOAT_MAX
  }

  /** The facial parts with a subset getter. */
  datatype FacePart = Chin | LeftEyebrow | RightEyebrow | Nose | LeftEye | RightEye | OuterLips | InnerLips

  /** The `*_START` constants. */
  function StartIndex(part: FacePart): nat
  {
    match part
    case Chin => 0
    case LeftEyebrow => 17
    case RightEyebrow => 22
    case Nose => 28
    case LeftEye => 36
    case RightEye => 42
    case OuterLips => 48
    case InnerLips => 60
  }

  /** The `*_END` constants (inclusive). */
  function EndIndex(part: FacePart): nat
  {
    match part
    case Chin => 16
    case LeftEyebrow => 21
    case RightEyebrow => 26
    case Nose => 35
    case LeftEye => 41
    case RightEye => 47
    case OuterLips => 59
    case InnerLips => 67
  }

  /** The point counts the index ranges give each part, and the fact that
      all ranges lie below 68 and do not overlap. */
  lemma PartRanges(part: FacePart)
    ensures StartIndex(part) <= EndIndex(part) < 68
    ensures part == Chin ==> EndIndex(part) - StartIndex(part) + 1 == 17
    ensures part in {LeftEyebrow, RightEyebrow} ==> EndIndex(part) - StartIndex(part) + 1 == 5
    ensures part == Nose ==> EndIndex(part) - StartIndex(part) + 1 == 8
    ensures part in {LeftEye, RightEye} ==> EndIndex(part) - StartIndex(part) + 1 == 6
    ensures part == OuterLips ==> EndIndex(part) - StartIndex(part) + 1 == 12
    ensures part == InnerLips ==> EndIndex(part) - StartIndex(part) + 1 == 8
    ensures forall other: FacePart :: other != part ==>
              EndIndex(part) < StartIndex(other) || EndIndex(other) < StartIndex(part)
  {
  }

  /** A face's value: what `getBound()` and `getAllLandmarks()` return. */
  datatype FaceData = FaceData(bound: RectF, landmarks: seq<Landmark>)
  {
    /** The subset getters (`getChinLandmarks()` and the seven others): the
        view `subList(START, END + 1)`, which throws unless the face has more
        than END landmarks. */
    function PartLandmarks(part: FacePart): (r: seq<Landmark>)
      requires |landmarks| > EndIndex(part)
      ensures |r| == EndIndex(part) - StartIndex(part) + 1
      ensures forall k :: 0 <= k < |r| ==> r[k] == landmarks[StartIndex(part) + k]
    {
      landmarks[StartIndex(part)..EndIndex(part) + 1]
    }
  }

  /** On a face with at least 68 points the eight parts, with point 27 (the
      top of the nose bridge) slotted in after the eyebrows, lay out the first
      68 landmarks in index order: every index but 27 is in exactly one part. */
  lemma PartsCoverFace(face: FaceData)
    requires |face.landmarks| >= 68
    ensures face.PartLandmarks(Chin) + face.PartLandmarks(LeftEyebrow) + face.PartLandmarks(RightEyebrow)
            + [face.landmarks[27]] + face.PartLandmarks(Nose) + face.PartLandmarks(LeftEye)
            + face.PartLandmarks(RightEye) + face.PartLandmarks(OuterLips) + face.PartLandmarks(InnerLips)
            == face.landmarks[..68]
  {
    var l := face.landmarks;
    assert [l[27]] == l[27..28];
    assert l[0..17] + l[17..22] == l[0..22];
    assert l[0..22] + l[22..27] == l[0..27];
    assert l[0..27] + l[27..28] == l[0..28];
    assert l[0..28] + l[28..36] == l[0..36];
    assert l[0..36] + l[36..42] == l[0..42];
    assert l[0..42] + l[42..48] == l[0..48];
    assert l[0..48] + l[48..60] == l[0..60];
    assert l[0..60] + l[60..68] == l[0..68];
  }

  /** `new Landmark(landmark.x * scaleX, landmark.y * scaleY)`. */
  function ScalePoint(l: Landmark, sx: real, sy: real): Landmark
  {
    Landmark(l.x * sx, l.y * sy)
  }

  /** Every landmark multiplied by (sx, sy), in order. */
  function ScaleLandmarks(lms: seq<Landmark>, sx: real, sy: real): (r: seq<Landmark>)
    ensures |r| == |lms|
    ensures forall i :: 0 <= i < |r| ==> r[i] == ScalePoint(lms[i], sx, sy)
  {
    if lms == [] then []
    else ScaleLandmarks(lms[..|lms| - 1], sx, sy) + [ScalePoint(lms[|lms| - 1], sx, sy)]
  }

  /** The rectangle with its x edges multiplied by sx and y edges by sy. */
  function ScaleRect(r: RectF, sx: real, sy: real): RectF
  {
    RectF(r.left * sx, r.top * sy, r.right * sx, r.bottom * sy)
  }

  /** What the scaling constructor builds from a face. */
  function ScaleFace(face: FaceData, sx: real, sy: real): FaceData
  {
    FaceData(ScaleRect(face.bound, sx, sy), ScaleLandmarks(face.landmarks, sx, sy))
  }

  /** Scaling by (1, 1) changes nothing, so the copy constructor, which
      delegates to the scaling one, copies. */
  lemma ScaleFaceByOne(face: FaceData)
    ensures ScaleFace(face, 1.0, 1.0) == face
  {
    assert ScaleLandmarks(face.landmarks, 1.0, 1.0) == face.landmarks;
  }

  /** Scaling twice is scaling once by the products. */
  lemma ScaleFaceTwice(face: FaceData, sx: real, sy: real, tx: real, ty: real)
    ensures ScaleFace(ScaleFace(face, sx, sy), tx, ty) == ScaleFace(face, sx * tx, sy * ty)
  {
    var once := ScaleLandmarks(face.landmarks, sx, sy);
    var twice := ScaleLandmarks(once, tx, ty);
    var direct := ScaleLandmarks(face.landmarks, sx * tx, sy * ty);
    forall i | 0 <= i < |twice|
      ensures twice[i] == direct[i]
    {
      assert face.landmarks[i].x * sx * tx == face.landmarks[i].x * (sx * tx);
      assert face.landmarks[i].y * sy * ty == face.landmarks[i].y * (sy * ty);
    }
    assert twice == direct;
    var b := face.bound;
    assert b.left * sx * tx == b.left * (sx * tx) && b.right * sx * tx == b.right * (sx * tx);
    assert b.top * sy * ty == b.top * (sy * ty) && b.bottom * sy * ty == b.bottom * (sy * ty);
  }

  /** Scaling keeps the parts: the part of a scaled face is the scaled part. */
  lemma ScaleFaceKeepsParts(face: FaceData, sx: real, sy: real, part: FacePart)
    requires |face.landmarks| > EndIndex(part)
    ensures |ScaleFace(face, sx, sy).landmarks| > EndIndex(part)
    ensures ScaleFace(face, sx, sy).PartLandmarks(part) == ScaleLandmarks(face.PartLandmarks(part), sx, sy)
  {
    ScaleLandmarksSlice(face.landmarks, sx, sy, StartIndex(part), EndIndex(part) + 1);
  }

  lemma ScaleLandmarksSlice(lms: seq<Landmark>, sx: real, sy: real, lo: nat, hi: nat)
    requires lo <= hi <= |lms|
    ensures ScaleLandmarks(lms, sx, sy)[lo..hi] == ScaleLandmarks(lms[lo..hi], sx, sy)
  {
    var left := ScaleLandmarks(lms, sx, sy)[lo..hi];
    var right := ScaleLandmarks(lms[lo..hi], sx, sy);
    forall k | 0 <= k < hi - lo
      ensures left[k] == right[k]
    {
      assert lms[lo..hi][k] == lms[lo + k];
    }
  }

  function Min(a: real, b: real): real { if a <= b then a else b }
  function Max(a: real, b: real): real { if a >= b then a else b }

  /** The bound the points constructor computes: running minima of x and y
      from `Float.MAX_VALUE` and running maxima from `Float.MIN_VALUE`. */
  function BoundOf(lms: seq<Landmark>): (r: RectF)
    ensures r.left <= FLOAT_MAX && r.top <= FLOAT_MAX
    ensures r.right >= FLOAT_MIN && r.bottom >= FLOAT_MIN
    ensures forall i :: 0 <= i < |lms| ==> r.left <= lms[i].x <= r.right && r.top <= lms[i].y <= r.bottom
    ensures r.left == FLOAT_MAX || exists i :: 0 <= i < |lms| && r.left == lms[i].x
    ensures r.top == FLOAT_MAX || exists i :: 0 <= i < |lms| && r.top == lms[i].y
    ensures r.right == FLOAT_MIN || exists i :: 0 <= i < |lms| && r.right == lms[i].x
    ensures r.bottom == FLOAT_MIN || exists i :: 0 <= i < |lms| && r.bottom == lms[i].y
  {
    if lms == [] then RectF(FLOAT_MAX, FLOAT_MAX, FLOAT_MIN, FLOAT_MIN)
    else
      var b := BoundOf(lms[..|lms| - 1]);
      var p := lms[|lms| - 1];
      assert forall i :: 0 <= i < |lms| - 1 ==> lms[..|lms| - 1][i] == lms[i];
      RectF(Min(b.left, p.x), Min(b.top, p.y), Max(b.right, p.x), Max(b.bottom, p.y))
  }

  /** For a non-empty list of float points the bound's left and top are the
      least x and the least y; right and bottom are the greatest x and y, or
      `Float.MIN_VALUE` when every x (every y) is below it. */
  lemma BoundOfFloatLandmarks(lms: seq<Landmark>)
    requires |lms| > 0
    requires forall i :: 0 <= i < |lms| ==> IsFloatLandmark(lms[i])
    ensures exists i :: 0 <= i < |lms| && BoundOf(lms).left == lms[i].x
    ensures exists i :: 0 <= i < |lms| && BoundOf(lms).top == lms[i].y
    ensures (exists i :: 0 <= i < |lms| && lms[i].x >= FLOAT_MIN) ==>
              exists i :: 0 <= i < |lms| && BoundOf(lms).right == lms[i].x
    ensures (forall i :: 0 <= i < |lms| ==> lms[i].x < FLOAT_MIN) ==> BoundOf(lms).right == FLOAT_MIN
    ensures (exists i :: 0 <= i < |lms| && lms[i].y >= FLOAT_MIN) ==>
              exists i :: 0 <= i < |lms| && BoundOf(lms).bottom == lms[i].y
    ensures (forall i :: 0 <= i < |lms| ==> lms[i].y < FLOAT_MIN) ==> BoundOf(lms).bottom == FLOAT_MIN
  {
    var b := BoundOf(lms);
    assert b.left <= lms[0].x <= FLOAT_MAX;
    assert b.top <= lms[0].y <= FLOAT_MAX;
    if b.left == FLOAT_MAX {
      assert b.left == lms[0].x;
    }
    if b.top == FLOAT_MAX {
      assert b.top == lms[0].y;
    }
  }

  lemma ScaleLandmarksSnoc(lms: seq<Landmark>, l: Landmark, sx: real, sy: real)
    ensures ScaleLandmarks(lms + [l], sx, sy) == ScaleLandmarks(lms, sx, sy) + [ScalePoint(l, sx, sy)]
  {
    assert (lms + [l])[..|lms|] == lms;
  }

  /** Helper for the constructors: each landmark scaled, in order. */
  method ScaleEach(lms: seq<Landmark>, sx: real, sy: real) returns (r: seq<Landmark>)
    ensures r == ScaleLandmarks(lms, sx, sy)
  {
    r := [];
    for i := 0 to |lms|
      invariant r == ScaleLandmarks(lms[..i], sx, sy)
    {
      assert lms[..i + 1] == lms[..i] + [lms[i]];
      ScaleLandmarksSnoc(lms[..i], lms[i], sx, sy);
      r := r + [ScalePoint(lms[i], sx, sy)];
    }
    assert lms[..|lms|] == lms;
  }

  /** `DLibFace68`: the bound and the landmark list are its fields. */
  class Face68 {
    var bound: RectF
    var landmarks: seq<Landmark>

    /** What `getBound()` and `getAllLandmarks()` return. */
    function Data(): FaceData
      reads this
    {
      FaceData(bound, landmarks)
    }

    /** From a parsed protobuf face: the bound's four edges and every
        landmark, in message order. */
    constructor FromMessage(raw: FaceData)
      ensures Data() == raw
    {
      var lms: seq<Landmark> := [];
      for i := 0 to |raw.landmarks|
        invariant lms == raw.landmarks[..i]
      {
        assert raw.landmarks[..i + 1] == raw.landmarks[..i] + [raw.landmarks[i]];
        lms := lms + [raw.landmarks[i]];
      }
      assert raw.landmarks[..|raw.landmarks|] == raw.landmarks;
      bound := raw.bound;
      landmarks := lms;
    }

    /** From a bound alone: no landmarks. */
    constructor FromBound(b: RectF)
      ensures bound == b && landmarks == []
    {
      bound := b;
      landmarks := [];
    }

    /** The copy constructor, `this(other, 1f, 1f)`. */
    constructor Copy(other: Face68)
      ensures Data() == other.Data()
    {
      var lms := ScaleEach(other.landmarks, 1.0, 1.0);
      ScaleFaceByOne(other.Data());
      bound := ScaleRect(other.bound, 1.0, 1.0);
      landmarks := lms;
    }

    /** The scaling constructor: the bound's edges and every landmark
        multiplied by (scaleX, scaleY), count and order kept. */
    constructor Scaled(other: Face68, scaleX: real, scaleY: real)
      ensures Data() == ScaleFace(other.Data(), scaleX, scaleY)
      ensures |landmarks| == |other.landmarks|
    {
      var lms := ScaleEach(other.landmarks, scaleX, scaleY);
      bound := ScaleRect(other.bound, scaleX, scaleY);
      landmarks := lms;
    }

    /** The points constructor: keeps the list and derives the bound with a
        min/max accumulator loop. */
    constructor FromLandmarks(lms: seq<Landmark>)
      ensures landmarks == lms && bound == BoundOf(lms)
    {
      var left, top, right, bottom := FLOAT_MAX, FLOAT_MAX, FLOAT_MIN, FLOAT_MIN;
      for i := 0 to |lms|
        invariant RectF(left, top, right, bottom) == BoundOf(lms[..i])
      {
        assert lms[..i + 1][..i] == lms[..i];
        left := Min(left, lms[i].x);
        top := Min(top, lms[i].y);
        right := Max(right, lms[i].x);
        bottom := Max(bottom, lms[i].y);
      }
      assert lms[..|lms|] == lms;
      landmarks := lms;
      bound := RectF(left, top, right, bottom);
    }

    /** `setAllLandmarks`: the list becomes exactly the given one. */
    method SetAllLandmarks(lms: seq<Landmark>)
      modifies this
      ensures landmarks == lms && bound == old(bound)
    {
      landmarks := lms;
    }
  }
}
