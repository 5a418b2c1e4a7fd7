/** What the two face detectors share: the camera and frame metadata, the
    upright preview size, the camera-to-view transform as an ordered list of
    matrix operations, Android's `SparseArray` and the `PostProcessor` that
    hands each frame's faces to the overlay. */
module DetectorCommon {
  import opened Wrappers
  import opened DLibFace68

  /** The `ICameraMetadata` queries the detectors use. */
  datatype CameraMetadata = CameraMetadata(facingFront: bool, portraitMode: bool)

  /** `Frame.ROTATION_0` .. `Frame.ROTATION_270`. */
  const ROTATION_0: int := 0
  const ROTATION_90: int := 1
  const ROTATION_180: int := 2
  const ROTATION_270: int := 3

  /** `frame.getMetadata()`: the frame's size and rotation code. */
  datatype FrameMetadata = FrameMetadata(width: int, height: int, rotation: int)

  /** `getUprightPreviewWidth`: the frame's height in portrait mode. */
  function UprightPreviewWidth(camera: CameraMetadata, frame: FrameMetadata): int
  {
    if camera.portraitMode then frame.height else frame.width
  }

  /** `getUprightPreviewHeight`: the frame's width in portrait mode. */
  function UprightPreviewHeight(camera: CameraMetadata, frame: FrameMetadata): int
  {
    if camera.portraitMode then frame.width else frame.height
  }

  /** The upright size is the frame's size, transposed exactly in portrait
      mode; either way it has the frame's area. */
  lemma UprightPreviewTransposes(camera: CameraMetadata, frame: FrameMetadata)
    ensures camera.portraitMode ==>
              UprightPreviewWidth(camera, frame) == frame.height && UprightPreviewHeight(camera, frame) == frame.width
    ensures !camera.portraitMode ==>
              UprightPreviewWidth(camera, frame) == frame.width && UprightPreviewHeight(camera, frame) == frame.height
    ensures UprightPreviewWidth(camera, frame) * UprightPreviewHeight(camera, frame) == frame.width * frame.height
    ensures UprightPreviewWidth(camera, frame) + UprightPreviewHeight(camera, frame) == frame.width + frame.height
  {
  }

  /** `Matrix.postRotate(degrees)` and `Matrix.postScale(sx, sy)`. */
  datatype TransformOp = PostRotate(degrees: int) | PostScale(sx: int, sy: int)

  /** `getCameraToViewTransform`: the rotation the frame's code names (none
      for any other code), then a horizontal mirror for the front camera. */
  function CameraToViewOps(camera: CameraMetadata, frame: FrameMetadata): (ops: seq<TransformOp>)
    ensures |ops| <= 2
    ensures frame.rotation in {ROTATION_90, ROTATION_180, ROTATION_270} <==> |ops| > 0 && ops[0].PostRotate?
    ensures forall i :: 0 <= i < |ops| && ops[i].PostRotate? ==>
              i == 0 && ops[i].degrees == 90 * frame.rotation
    ensures camera.facingFront <==> |ops| > 0 && ops[|ops| - 1] == PostScale(-1, 1)
    ensures forall i :: 0 <= i < |ops| && ops[i].PostScale? ==> i == |ops| - 1 && ops[i] == PostScale(-1, 1)
    ensures |ops| == (if frame.rotation in {ROTATION_90, ROTATION_180, ROTATION_270} then 1 else 0)
                     + (if camera.facingFront then 1 else 0)
  {
    var rotation :=
      if frame.rotation == ROTATION_90 then [PostRotate(90)]
      else if frame.rotation == ROTATION_180 then [PostRotate(180)]
      else if frame.rotation == ROTATION_270 then [PostRotate(270)]
      else [];
    rotation + (if camera.facingFront then [PostScale(-1, 1)] else [])
  }

  datatype Point = Point(x: int, y: int)

  /** A quarter turn in the view's coordinates: (x, y) to (-y, x). */
  function QuarterTurns(n: nat, p: Point): Point
  {
    if n == 0 then p else QuarterTurns(n - 1, Point(-p.y, p.x))
  }

  /** An operation applied to a point (rotations by multiples of 90). */
  function ApplyOp(op: TransformOp, p: Point): Point
  {
    match op
    case PostRotate(degrees) => if degrees >= 0 then QuarterTurns(degrees / 90, p) else p
    case PostScale(sx, sy) => Point(p.x * sx, p.y * sy)
  }

  /** A `post*` sequence applied to a point: the first operation first. */
  function ApplyOps(ops: seq<TransformOp>, p: Point): Point
  {
    if ops == [] then p else ApplyOps(ops[1..], ApplyOp(ops[0], p))
  }

  lemma {:induction false} ApplyOpsAppend(a: seq<TransformOp>, b: seq<TransformOp>, p: Point)
    ensures ApplyOps(a + b, p) == ApplyOps(b, ApplyOps(a, p))
    decreases |a|
  {
    if a == [] {
      assert a + b == b;
    } else {
      assert (a + b)[1..] == a[1..] + b;
      ApplyOpsAppend(a[1..], b, ApplyOp(a[0], p));
    }
  }

  /** The front camera's transform is the back camera's rotation followed by
      the mirror: the mirror is applied last, never before the rotation. */
  lemma FrontCameraMirrorsLast(frame: FrameMetadata, portraitMode: bool, p: Point)
    ensures var back := ApplyOps(CameraToViewOps(CameraMetadata(false, portraitMode), frame), p);
            ApplyOps(CameraToViewOps(CameraMetadata(true, portraitMode), frame), p) == Point(-back.x, back.y)
  {
    var backOps := CameraToViewOps(CameraMetadata(false, portraitMode), frame);
    assert CameraToViewOps(CameraMetadata(true, portraitMode), frame) == backOps + [PostScale(-1, 1)];
    ApplyOpsAppend(backOps, [PostScale(-1, 1)], p);
    var back := ApplyOps(backOps, p);
    assert ApplyOps([PostScale(-1, 1)], back) == ApplyOps([], ApplyOp(PostScale(-1, 1), back));
  }

  /** For example a front camera whose frame is rotated by 90 maps (x, y) to
      (y, x): (-y, x) after the turn, then mirrored. */
  lemma FrontCameraRotation90(portraitMode: bool, w: int, h: int, p: Point)
    ensures ApplyOps(CameraToViewOps(CameraMetadata(true, portraitMode), FrameMetadata(w, h, ROTATION_90)), p)
            == Point(p.y, p.x)
  {
    var ops := CameraToViewOps(CameraMetadata(true, portraitMode), FrameMetadata(w, h, ROTATION_90));
    assert ops == [PostRotate(90), PostScale(-1, 1)];
    assert QuarterTurns(1, p) == Point(-p.y, p.x);
    assert ApplyOp(PostRotate(90), p) == Point(-p.y, p.x);
    assert ops[1..] == [PostScale(-1, 1)];
    assert ApplyOps(ops[1..][1..], ApplyOp(ops[1..][0], Point(-p.y, p.x))) == Point(p.y, p.x);
  }

  /** An entry of Android's `SparseArray`. */
  datatype Entry<T> = Entry(key: int, value: T)

  predicate KeysIncreasing<T>(a: seq<Entry<T>>)
  {
    forall i, j :: 0 <= i < j < |a| ==> a[i].key < a[j].key
  }

  /** `SparseArray<T>`: entries kept in strictly increasing key order. */
  type SparseArray<T> = a: seq<Entry<T>> | KeysIncreasing(a) witness []

  function Keys<T>(a: seq<Entry<T>>): set<int>
  {
    set i | 0 <= i < |a| :: a[i].key
  }

  /** `get(key)`: the value under the key, if any. */
  function Get<T>(a: seq<Entry<T>>, key: int): (r: Option<T>)
    ensures r.Some? <==> key in Keys(a)
  {
    if a == [] then None
    else if a[0].key == key then Some(a[0].value)
    else
      assert Keys(a) == {a[0].key} + Keys(a[1..]) by {
        forall k | k in Keys(a) ensures k in {a[0].key} + Keys(a[1..]) {
          var i :| 0 <= i < |a| && a[i].key == k;
          if i > 0 { assert a[1..][i - 1] == a[i]; }
        }
      }
      Get(a[1..], key)
  }

  lemma KeysCons<T>(e: Entry<T>, t: seq<Entry<T>>)
    ensures Keys([e] + t) == {e.key} + Keys(t)
  {
    var r := [e] + t;
    forall k | k in Keys(r) ensures k in {e.key} + Keys(t) {
      var i :| 0 <= i < |r| && r[i].key == k;
      if i > 0 { assert r[i] == t[i - 1]; }
    }
    forall k | k in {e.key} + Keys(t) ensures k in Keys(r) {
      if k == e.key { assert r[0].key == k; }
      else { var i :| 0 <= i < |t| && t[i].key == k; assert r[i + 1] == t[i]; }
    }
  }

  lemma GetCons<T>(e: Entry<T>, t: seq<Entry<T>>)
    ensures forall key :: Get([e] + t, key) == if e.key == key then Some(e.value) else Get(t, key)
  {
    assert ([e] + t)[1..] == t;
  }

  /** The tail of a sparse array is one, with every key above the head's. */
  lemma TailAbove<T>(a: SparseArray<T>)
    requires a != []
    ensures KeysIncreasing(a[1..])
    ensures Keys(a) == {a[0].key} + Keys(a[1..])
    ensures forall k :: k in Keys(a[1..]) ==> a[0].key < k
  {
    assert a == [a[0]] + a[1..];
    KeysCons(a[0], a[1..]);
    forall k | k in Keys(a[1..]) ensures a[0].key < k {
      var i :| 0 <= i < |a[1..]| && a[1..][i].key == k;
      assert a[1..][i] == a[i + 1];
    }
  }

  lemma ConsIncreasing<T>(e: Entry<T>, t: SparseArray<T>)
    requires forall k :: k in Keys(t) ==> e.key < k
    ensures KeysIncreasing([e] + t)
  {
    var r := [e] + t;
    forall i, j | 0 <= i < j < |r| ensures r[i].key < r[j].key {
      assert r[j] == t[j - 1];
      assert t[j - 1].key in Keys(t);
      if i > 0 { assert r[i] == t[i - 1]; }
    }
  }

  /** `put(key, value)`: inserts at the key's place in the order, replacing
      an entry with the same key. */
  function Put<T>(a: SparseArray<T>, key: int, value: T): (r: SparseArray<T>)
    ensures Keys(r) == Keys(a) + {key}
    ensures Get(r, key) == Some(value)
    ensures forall k :: k != key ==> Get(r, k) == Get(a, k)
  {
    var e := Entry(key, value);
    if a == [] then
      KeysCons(e, []);
      assert [e] + [] == [e];
      [e]
    else
      TailAbove(a);
      var tail: SparseArray<T> := a[1..];
      assert a == [a[0]] + tail;
      GetCons(a[0], tail);
      if key < a[0].key then
        ConsIncreasing(e, a);
        KeysCons(e, a);
        GetCons(e, a);
        [e] + a
      else if key == a[0].key then
        ConsIncreasing(e, tail);
        KeysCons(e, tail);
        GetCons(e, tail);
        [e] + tail
      else
        var rest := Put(tail, key, value);
        ConsIncreasing(a[0], rest);
        KeysCons(a[0], rest);
        GetCons(a[0], rest);
        [a[0]] + rest
  }

  /** Putting a key beyond every present key appends it. */
  lemma PutBeyondLast<T>(a: SparseArray<T>, key: int, value: T)
    requires forall i :: 0 <= i < |a| ==> a[i].key < key
    ensures Put(a, key, value) == a + [Entry(key, value)]
    decreases |a|
  {
    if a != [] {
      var tail: SparseArray<T> := a[1..];
      assert key > a[0].key;
      assert forall i :: 0 <= i < |tail| ==> tail[i] == a[i + 1];
      PutBeyondLast(tail, key, value);
      assert Put(a, key, value) == [a[0]] + Put(tail, key, value);
      assert [a[0]] + (tail + [Entry(key, value)]) == a + [Entry(key, value)];
    }
  }

  /** The array a re-keying loop builds: element i under key i. */
  function Indexed<T>(s: seq<T>): (r: SparseArray<T>)
    ensures |r| == |s|
    ensures forall i :: 0 <= i < |r| ==> r[i] == Entry(i, s[i])
  {
    if s == [] then []
    else
      var front := Indexed(s[..|s| - 1]);
      var r := front + [Entry(|s| - 1, s[|s| - 1])];
      assert forall i :: 0 <= i < |r| ==> r[i].key == i;
      r
  }

  /** `valueAt(0) .. valueAt(size() - 1)`: the values in key order. */
  function Values<T>(a: seq<Entry<T>>): (r: seq<T>)
    ensures |r| == |a|
    ensures forall i :: 0 <= i < |r| ==> r[i] == a[i].value
  {
    if a == [] then [] else Values(a[..|a| - 1]) + [a[|a| - 1].value]
  }

  /** Re-keying a list and reading it back in key order gives the list, and
      key i holds element i (and no other key is present). */
  lemma IndexedRoundTrip<T>(s: seq<T>)
    ensures Values(Indexed(s)) == s
    ensures forall k :: Get(Indexed(s), k) == if 0 <= k < |s| then Some(s[k]) else None
  {
    var a := Indexed(s);
    forall k ensures Get(a, k) == if 0 <= k < |s| then Some(s[k]) else None {
      GetIndexed(a, s, k, 0);
    }
  }

  lemma GetIndexed<T>(a: seq<Entry<T>>, s: seq<T>, k: int, from: nat)
    requires from <= |a| == |s|
    requires forall i :: 0 <= i < |a| ==> a[i] == Entry(i, s[i])
    requires from <= k || k < 0
    ensures Get(a[from..], k) == if 0 <= k < |s| then Some(s[k]) else None
    decreases |a| - from
  {
    var t := a[from..];
    if from < |a| {
      assert t[1..] == a[from + 1..];
      if k != from {
        GetIndexed(a, s, k, from + 1);
      }
    } else {
      assert t == [];
    }
  }

  /** The re-keying loop of both `detect`s: after `clear()`, `put(i, faces[i])`
      for every i in order. */
  method Rekey<T>(faces: seq<T>) returns (a: SparseArray<T>)
    ensures a == Indexed(faces)
  {
    a := [];
    for i := 0 to |faces|
      invariant a == Indexed(faces[..i])
    {
      IndexedStep(faces, i);
      a := Put(a, i, faces[i]);
    }
    assert faces[..|faces|] == faces;
  }

  /** One step of the loop: every key so far is below i, so `put(i, _)`
      appends, which is how the next prefix is indexed. */
  lemma IndexedStep<T>(s: seq<T>, i: nat)
    requires i < |s|
    ensures Put(Indexed(s[..i]), i, s[i]) == Indexed(s[..i + 1])
  {
    var a := Indexed(s[..i]);
    PutBeyondLast(a, i, s[i]);
    assert s[..i + 1][..i] == s[..i];
    assert Indexed(s[..i + 1]) == a + [Entry(i, s[i])];
  }

  /** What `detect` gives its caller: an `IllegalStateException`, null (the
      protobuf reply failed to parse) or the detector's own `mDetFaces`. */
  datatype DetectResult = IllegalState | NullResult | Detected(faces: SparseArray<FaceData>)

  /** `getDetectedItems()`, which may be null. */
  datatype Detections = Detections(detectedItems: Option<SparseArray<FaceData>>)

  /** The detectors' `PostProcessor`: `mFaces` is its list, `published` logs
      every list passed to the overlay's `setFaces`. */
  class PostProcessor {
    var faces: seq<FaceData>
    ghost var published: seq<seq<FaceData>>

    constructor ()
      ensures faces == [] && published == []
    {
      faces := [];
      published := [];
    }

    /** `receiveDetections`: clears the list; null detections publish the
        empty list, null items publish nothing, otherwise every item is
        published, in key order. */
    method ReceiveDetections(detections: Option<Detections>)
      modifies this
      ensures detections.None? ==> faces == [] && published == old(published) + [[]]
      ensures detections.Some? && detections.value.detectedItems.None? ==>
                faces == [] && published == old(published)
      ensures detections.Some? && detections.value.detectedItems.Some? ==>
                faces == Values(detections.value.detectedItems.value) &&
                published == old(published) + [faces]
    {
      faces := [];
      if detections.None? {
        published := published + [faces];
        return;
      }
      var items := detections.value.detectedItems;
      if items.None? {
        return;
      }
      var a := items.value;
      for i := 0 to |a|
        invariant faces == Values(a[..i])
        invariant published == old(published)
      {
        assert a[..i + 1][..i] == a[..i];
        faces := faces + [a[i].value];
      }
      assert a[..|a|] == a;
      published := published + [faces];
    }
  }
}
