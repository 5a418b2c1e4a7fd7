/** The native side of the landmarks detector: copying an Android bitmap into
    a dlib RGB image, the two static dlib detectors and their readiness
    guards, and the loops that turn dlib's detections into face messages.
    The dlib face detector and shape predictor are not modelled: their
    answers for the image at hand are parameters. Coordinates stay in
    pixels (the division by the image size is not modelled). */
module DLibLandmarksJni {
  import opened Wrappers
  import opened JavaInt

  /** `ANDROID_BITMAP_FORMAT_RGBA_8888` of the NDK's bitmap.h. */
  const ANDROID_BITMAP_FORMAT_RGBA_8888: int := 1
  /** `ANDROID_BITMAP_FORMAT_RGB_565`: two bytes per pixel. */
  const ANDROID_BITMAP_FORMAT_RGB_565: int := 4

  const GET_INFO_FAILED: string := "AndroidBitmap_getInfo() failed!"
  const WRONG_FORMAT: string := "Bitmap format is not RGB_565!"
  const LOCK_PIXELS_FAILED: string := "AndroidBitmap_lockPixels() failed!"
  const FACE_DETECTOR_NOT_READY: string := "sFaceDetector is not initialized!"
  const LANDMARKS_DETECTOR_NOT_READY: string := "sFaceLandmarksDetector is not initialized!"
  const NOT_68_LANDMARKS: string := "It's not a 68 landmarks detector!"

  /** The number of parts a usable landmarks model must have. */
  const LANDMARK_PARTS: nat := 68

  // ---------------------------------------------------------------------
  // Bitmaps and pixels
  // ---------------------------------------------------------------------

  /** `AndroidBitmapInfo`: size in pixels, bytes per row, pixel format. */
  datatype BitmapInfo = BitmapInfo(width: nat, height: nat, stride: nat, format: int)

  /** A bitmap as the NDK presents it: the status `AndroidBitmap_getInfo`
      returns with the info it fills in, the status `AndroidBitmap_lockPixels`
      returns, and the locked pixel bytes. */
  datatype Bitmap = Bitmap(infoState: int, info: BitmapInfo, lockState: int, pixels: seq<bv8>)

  /** Whether both NDK calls succeed. */
  predicate Readable(b: Bitmap)
  {
    b.infoState >= 0 && b.lockState >= 0
  }

  /** The layout the conversion's four-byte reads need once both calls
      succeed: a row holds at least `width` four-byte pixels, and the buffer
      holds `height` rows. The NDK only promises `stride` at least the
      format's bytes per pixel times `width`, so this holds for the
      RGBA_8888 bitmaps every caller passes; `WrongFormatReadsPastBuffer`
      shows a bitmap of another format the conversion would read past. */
  predicate WellFormed(b: Bitmap)
  {
    Readable(b) ==> 4 * b.info.width <= b.info.stride && b.info.height * b.info.stride <= |b.pixels|
  }

  /** `dlib::rgb_pixel`. */
  datatype RgbPixel = RgbPixel(red: bv8, green: bv8, blue: bv8)

  /** The 32-bit word `*(uint32_t*) p` at byte offset `off`, on the
      little-endian processors Android runs on: byte `off + k` lands in bits
      8k to 8k + 7. */
  function LoadWord(mem: seq<bv8>, off: nat): (word: bv32)
    requires off + 4 <= |mem|
    ensures (word & 0xFF) as bv8 == mem[off]
    ensures ((word >> 8) & 0xFF) as bv8 == mem[off + 1]
    ensures ((word >> 16) & 0xFF) as bv8 == mem[off + 2]
    ensures (word >> 24) as bv8 == mem[off + 3]
  {
    mem[off] as bv32 | (mem[off + 1] as bv32 << 8) | (mem[off + 2] as bv32 << 16) | (mem[off + 3] as bv32 << 24)
  }

  /** The channels as `convertBitmapToArray2d` extracts them from the word:
      red from bits 24-31, green from 16-23, blue from 8-15. Read against the
      memory, that is red from the fourth byte, green from the third and blue
      from the second; the first byte is ignored. */
  function PixelAt(mem: seq<bv8>, off: nat): (p: RgbPixel)
    requires off + 4 <= |mem|
    ensures p == RgbPixel(mem[off + 3], mem[off + 2], mem[off + 1])
  {
    var word := LoadWord(mem, off);
    RgbPixel(((word >> 24) & 0xFF) as bv8, ((word >> 16) & 0xFF) as bv8, ((word >> 8) & 0xFF) as bv8)
  }

  /** The four bytes an RGBA_8888 pixel occupies in memory: red, green, blue,
      alpha, in that order. */
  function EncodeRgba(p: RgbPixel, alpha: bv8): (bytes: seq<bv8>)
    ensures |bytes| == 4
  {
    [p.red, p.green, p.blue, alpha]
  }

  /** The unpacking the RGBA_8888 layout calls for on a little-endian word:
      red from bits 0-7, green from 8-15, blue from 16-23, alpha (24-31)
      ignored. It reads back exactly the colour an RGBA_8888 pixel stores,
      whatever its alpha. */
  function RgbaPixelAt(mem: seq<bv8>, off: nat): (p: RgbPixel)
    requires off + 4 <= |mem|
    ensures p == RgbPixel(mem[off], mem[off + 1], mem[off + 2])
    ensures forall q: RgbPixel, alpha: bv8 {:trigger EncodeRgba(q, alpha)} ::
              mem[off..off + 4] == EncodeRgba(q, alpha) ==> p == q
  {
    var word := LoadWord(mem, off);
    var p := RgbPixel((word & 0xFF) as bv8, ((word >> 8) & 0xFF) as bv8, ((word >> 16) & 0xFF) as bv8);
    assert p == RgbPixel(mem[off], mem[off + 1], mem[off + 2]);
    EncodedBytes(mem, off);
    p
  }

  /** The first three bytes of a window holding an encoded pixel are its
      red, green and blue. */
  lemma EncodedBytes(mem: seq<bv8>, off: nat)
    requires off + 4 <= |mem|
    ensures forall q: RgbPixel, alpha: bv8 {:trigger EncodeRgba(q, alpha)} ::
              mem[off..off + 4] == EncodeRgba(q, alpha) ==>
                q == RgbPixel(mem[off], mem[off + 1], mem[off + 2])
  {
    forall q: RgbPixel, alpha: bv8 | mem[off..off + 4] == EncodeRgba(q, alpha)
      ensures q == RgbPixel(mem[off], mem[off + 1], mem[off + 2])
    {
      var window := mem[off..off + 4];
      assert window[0] == mem[off] && window[1] == mem[off + 1] && window[2] == mem[off + 2];
    }
  }

  /** The channels `convertBitmapToArray2d` produces from an RGBA_8888 pixel
      are not its colour: red receives the alpha byte, green the blue byte
      and blue the green byte. An opaque pixel with red 0x11, green 0x22 and
      blue 0x33 comes out with red 0xFF; the RGBA reading gives it back. */
  lemma PixelAtMisreadsRgba(p: RgbPixel, alpha: bv8)
    ensures PixelAt(EncodeRgba(p, alpha), 0) == RgbPixel(alpha, p.blue, p.green)
    ensures RgbaPixelAt(EncodeRgba(p, alpha), 0) == p
    ensures PixelAt(EncodeRgba(RgbPixel(0x11, 0x22, 0x33), 0xFF), 0) == RgbPixel(0xFF, 0x33, 0x22)
    ensures PixelAt(EncodeRgba(RgbPixel(0x11, 0x22, 0x33), 0xFF), 0) != RgbPixel(0x11, 0x22, 0x33)
  {
    var bytes := EncodeRgba(p, alpha);
    assert bytes[0..4] == bytes;
    var solid := EncodeRgba(RgbPixel(0x11, 0x22, 0x33), 0xFF);
    assert solid[3] == 0xFF;
  }

  /** Pixel (h, w) sits `h` rows of `stride` bytes and `w` pixels of four
      bytes into the buffer, and all four of its bytes are inside it. */
  lemma PixelOffsetInBuffer(b: Bitmap, h: nat, w: nat)
    requires WellFormed(b) && Readable(b)
    requires h < b.info.height && w < b.info.width
    ensures h * b.info.stride + 4 * w + 4 <= |b.pixels|
  {
    var s := b.info.stride;
    assert (h + 1) * s <= b.info.height * s by {
      assert b.info.height * s == (h + 1) * s + (b.info.height - h - 1) * s;
    }
    assert (h + 1) * s == h * s + s;
  }

  /** The pixel `convertBitmapToArray2d` stores at row h, column w. */
  function Pixel(b: Bitmap, h: nat, w: nat): RgbPixel
    requires WellFormed(b) && Readable(b)
    requires h < b.info.height && w < b.info.width
  {
    PixelOffsetInBuffer(b, h, w);
    PixelAt(b.pixels, h * b.info.stride + 4 * w)
  }

  /** The exceptions `convertBitmapToArray2d` raises when `getInfo`
      succeeds: one for a format other than RGBA_8888 (which does not stop
      the copy), then one if the pixels cannot be locked. */
  function ConversionErrors(b: Bitmap): (errors: seq<string>)
    ensures b.infoState < 0 ==> errors == [GET_INFO_FAILED]
    ensures b.infoState >= 0 ==>
              errors == (if b.info.format != ANDROID_BITMAP_FORMAT_RGBA_8888 then [WRONG_FORMAT] else []) +
                        (if b.lockState < 0 then [LOCK_PIXELS_FAILED] else [])
    ensures errors == [] <==> Readable(b) && b.info.format == ANDROID_BITMAP_FORMAT_RGBA_8888
  {
    if b.infoState < 0 then [GET_INFO_FAILED]
    else (if b.info.format != ANDROID_BITMAP_FORMAT_RGBA_8888 then [WRONG_FORMAT] else []) +
         (if b.lockState < 0 then [LOCK_PIXELS_FAILED] else [])
  }
  /** Outside the callers' RGBA_8888 bitmaps: an RGB_565 bitmap two pixels
      wide, one row of four bytes. The wrong format is reported but does not
      stop the conversion (both NDK calls succeed), and the word read for the
      second pixel lies past the end of the buffer. */
  lemma WrongFormatReadsPastBuffer()
    ensures var b := Bitmap(0, BitmapInfo(2, 1, 4, ANDROID_BITMAP_FORMAT_RGB_565), 0, [0, 0, 0, 0]);
            Readable(b) && ConversionErrors(b) == [WRONG_FORMAT] && !WellFormed(b) &&
            0 * b.info.stride + 4 * 1 + 4 > |b.pixels|
  {
  }


  /** The JNI environment as these functions use it: the exceptions
      `throwException` raises, in order, and the balance of
      `AndroidBitmap_lockPixels` over `AndroidBitmap_unlockPixels`. */
  class JniEnv {
    var thrown: seq<string>
    ghost var lockedPixels: int

    constructor ()
      ensures thrown == [] && lockedPixels == 0
    {
      thrown := [];
      lockedPixels := 0;
    }

    /** `throwException(env, message)`. */
    method ThrowException(message: string)
      modifies this
      ensures thrown == old(thrown) + [message]
      ensures lockedPixels == old(lockedPixels)
    {
      thrown := thrown + [message];
    }
  }

  /** `dlib::array2d<dlib::rgb_pixel>`: `nr()` rows of `nc()` pixels. */
  class Array2d {
    var pixels: array2<RgbPixel>

    /** A default-constructed image is empty. */
    constructor ()
      ensures pixels.Length0 == 0 && pixels.Length1 == 0
    {
      pixels := new RgbPixel[0, 0];
    }
  }

  /** The two nested loops of `convertBitmapToArray2d`: `line` advances by
      `stride` bytes per row, and pixel w of a row is the word at `line + 4w`. */
  method CopyPixels(bitmap: Bitmap, img: array2<RgbPixel>)
    requires WellFormed(bitmap) && Readable(bitmap)
    requires img.Length0 == bitmap.info.height && img.Length1 == bitmap.info.width
    modifies img
    ensures forall h, w :: 0 <= h < img.Length0 && 0 <= w < img.Length1 ==> img[h, w] == Pixel(bitmap, h, w)
  {
    var line := 0;
    for h := 0 to img.Length0
      invariant line == h * bitmap.info.stride
      invariant forall i, j :: 0 <= i < h && 0 <= j < img.Length1 ==> img[i, j] == Pixel(bitmap, i, j)
    {
      CopyRow(bitmap, img, h, line);
      line := line + bitmap.info.stride;
    }
  }

  /** The inner loop: row h, which starts at byte `line`. */
  method CopyRow(bitmap: Bitmap, img: array2<RgbPixel>, h: nat, line: nat)
    requires WellFormed(bitmap) && Readable(bitmap)
    requires img.Length0 == bitmap.info.height && img.Length1 == bitmap.info.width
    requires h < img.Length0 && line == h * bitmap.info.stride
    modifies img
    ensures forall j :: 0 <= j < img.Length1 ==> img[h, j] == Pixel(bitmap, h, j)
    ensures forall i, j :: 0 <= i < img.Length0 && i != h && 0 <= j < img.Length1 ==> img[i, j] == old(img[i, j])
  {
    for w := 0 to img.Length1
      invariant forall j :: 0 <= j < w ==> img[h, j] == Pixel(bitmap, h, j)
      invariant forall i, j :: 0 <= i < img.Length0 && i != h && 0 <= j < img.Length1 ==> img[i, j] == old(img[i, j])
    {
      PixelOffsetInBuffer(bitmap, h, w);
      img[h, w] := PixelAt(bitmap.pixels, line + 4 * w);
    }
  }

  /** `convertBitmapToArray2d`. A failing `getInfo` throws and leaves `out`
      alone; a wrong format throws and carries on; a failing `lockPixels`
      throws and leaves `out` alone. Otherwise `out` is resized to height
      rows by width columns, every pixel is unpacked from its word, and the
      pixels are unlocked again. */
  method ConvertBitmapToArray2d(env: JniEnv, bitmap: Bitmap, out: Array2d)
    requires WellFormed(bitmap)
    modifies env, out
    ensures env.thrown == old(env.thrown) + ConversionErrors(bitmap)
    ensures env.lockedPixels == old(env.lockedPixels)
    ensures !Readable(bitmap) ==> out.pixels == old(out.pixels)
    ensures Readable(bitmap) ==>
              fresh(out.pixels) &&
              out.pixels.Length0 == bitmap.info.height && out.pixels.Length1 == bitmap.info.width
    ensures Readable(bitmap) ==>
              forall h, w :: 0 <= h < out.pixels.Length0 && 0 <= w < out.pixels.Length1 ==>
                out.pixels[h, w] == Pixel(bitmap, h, w)
  {
    if bitmap.infoState < 0 {
      env.ThrowException(GET_INFO_FAILED);
      return;
    } else if bitmap.info.format != ANDROID_BITMAP_FORMAT_RGBA_8888 {
      env.ThrowException(WRONG_FORMAT);
    }
    if bitmap.lockState < 0 {
      env.ThrowException(LOCK_PIXELS_FAILED);
      return;
    }
    env.lockedPixels := env.lockedPixels + 1;

    var img := new RgbPixel[bitmap.info.height, bitmap.info.width];
    out.pixels := img;
    CopyPixels(bitmap, img);
    env.lockedPixels := env.lockedPixels - 1;
  }

  // ---------------------------------------------------------------------
  // The static detectors
  // ---------------------------------------------------------------------

  /** `dlib::rectangle` and `dlib::point`, in pixels. */
  datatype DRect = DRect(left: int, top: int, right: int, bottom: int)
  datatype DPoint = DPoint(x: int, y: int)

  /** A `Face` message: its bound and its landmarks. */
  datatype NativeFace = NativeFace(bound: DRect, landmarks: seq<DPoint>)

  /** A `RectF` message of the input face rects. */
  datatype MsgRect = MsgRect(left: real, top: real, right: real, bottom: real)

  /** The `(long)` casts that turn a message rect into a dlib rectangle. */
  function Truncated(m: MsgRect): (r: DRect)
    ensures m.left >= 0.0 ==> r.left as real <= m.left < r.left as real + 1.0
    ensures m.top >= 0.0 ==> r.top as real <= m.top < r.top as real + 1.0
    ensures m.right >= 0.0 ==> r.right as real <= m.right < r.right as real + 1.0
    ensures m.bottom >= 0.0 ==> r.bottom as real <= m.bottom < r.bottom as real + 1.0
  {
    DRect(Trunc(m.left), Trunc(m.top), Trunc(m.right), Trunc(m.bottom))
  }

  /** Which exception, if any, `detectFacesAndLandmarks` raises before doing
      any work: the face detector is checked first, then the landmarks
      detector. */
  function ReadinessError(numDetectors: nat, numParts: nat): (e: Option<string>)
    ensures e == None <==> numDetectors > 0 && numParts > 0
    ensures e == Some(FACE_DETECTOR_NOT_READY) <==> numDetectors == 0
    ensures e == Some(LANDMARKS_DETECTOR_NOT_READY) <==> numDetectors > 0 && numParts == 0
  {
    if numDetectors == 0 then Some(FACE_DETECTOR_NOT_READY)
    else if numParts == 0 then Some(LANDMARKS_DETECTOR_NOT_READY)
    else None
  }

  /** `sFaceDetector` and `sFaceLandmarksDetector`, reduced to what the
      guards look at: `num_detectors()` and `num_parts()`. Both start out
      default-constructed, with none. */
  class NativeDetectors {
    var numDetectors: nat
    var numParts: nat

    constructor ()
      ensures numDetectors == 0 && numParts == 0
    {
      numDetectors := 0;
      numParts := 0;
    }

    /** `isFaceDetectorReady`. */
    function IsFaceDetectorReady(): (r: bool)
      reads this
      ensures r <==> numDetectors > 0
    {
      numDetectors > 0
    }

    /** `isFaceLandmarksDetectorReady`. */
    function IsFaceLandmarksDetectorReady(): (r: bool)
      reads this
      ensures r <==> numParts > 0
    {
      numParts > 0
    }

    /** `prepareFaceDetector`: installs dlib's frontal face detector, which
        has `detectors` sub-detectors. */
    method PrepareFaceDetector(detectors: nat)
      modifies this
      ensures numDetectors == detectors && numParts == old(numParts)
    {
      numDetectors := detectors;
    }

    /** `prepareFaceLandmarksDetector`: installs the deserialised model
        whatever its size, then throws unless it has exactly 68 parts. A
        model of any other non-zero size is kept and counts as ready. */
    method PrepareFaceLandmarksDetector(env: JniEnv, parts: nat)
      modifies this, env
      ensures numParts == parts && numDetectors == old(numDetectors)
      ensures env.thrown == old(env.thrown) + (if parts != LANDMARK_PARTS then [NOT_68_LANDMARKS] else [])
      ensures env.lockedPixels == old(env.lockedPixels)
      ensures parts > 0 ==> IsFaceLandmarksDetectorReady()
    {
      numParts := parts;
      if numParts != LANDMARK_PARTS {
        env.ThrowException(NOT_68_LANDMARKS);
      }
    }
  }

  /** The face messages for a list of dlib rectangles: one per rectangle,
      in order, each with the landmarks the shape predictor finds in it. */
  predicate FacesFor(faces: seq<NativeFace>, rects: seq<DRect>, predict: DRect -> seq<DPoint>)
  {
    |faces| == |rects| &&
    forall j :: 0 <= j < |rects| ==> faces[j] == NativeFace(rects[j], predict(rects[j]))
  }

  /** The per-rectangle loop shared by the detect functions. */
  method FacesOf(rects: seq<DRect>, predict: DRect -> seq<DPoint>) returns (faces: seq<NativeFace>)
    ensures FacesFor(faces, rects, predict)
  {
    faces := [];
    for j := 0 to |rects|
      invariant FacesFor(faces, rects[..j], predict)
    {
      faces := faces + [NativeFace(rects[j], predict(rects[j]))];
    }
    assert rects[..|rects|] == rects;
  }

  /** `detectFacesAndLandmarks`: returns nothing (NULL) after throwing when a
      detector is not ready, the face detector checked first. Otherwise it
      converts the bitmap and emits one face per detection `dets` of the
      face detector, in order, with the predictor's landmarks. */
  method DetectFacesAndLandmarks(env: JniEnv, detectors: NativeDetectors, bitmap: Bitmap,
                                 dets: seq<DRect>, predict: DRect -> seq<DPoint>)
    returns (r: Option<seq<NativeFace>>)
    requires WellFormed(bitmap)
    modifies env
    ensures ReadinessError(detectors.numDetectors, detectors.numParts) != None ==>
              r == None && env.thrown == old(env.thrown) + [ReadinessError(detectors.numDetectors, detectors.numParts).value]
    ensures r.None? <==> !detectors.IsFaceDetectorReady() || !detectors.IsFaceLandmarksDetectorReady()
    ensures r.Some? ==> env.thrown == old(env.thrown) + ConversionErrors(bitmap) && FacesFor(r.value, dets, predict)
    ensures env.lockedPixels == old(env.lockedPixels)
  {
    if detectors.numDetectors == 0 {
      env.ThrowException(FACE_DETECTOR_NOT_READY);
      return None;
    }
    if detectors.numParts == 0 {
      env.ThrowException(LANDMARKS_DETECTOR_NOT_READY);
      return None;
    }
    var img := new Array2d();
    ConvertBitmapToArray2d(env, bitmap, img);
    var faces := FacesOf(dets, predict);
    return Some(faces);
  }

  /** `detectLandmarksFromFaces`: truncates each input rect to a dlib
      rectangle, then emits exactly one face per rect, in input order. It
      checks no detector first. */
  method DetectLandmarksFromFaces(env: JniEnv, bitmap: Bitmap, rects: seq<MsgRect>,
                                  predict: DRect -> seq<DPoint>)
    returns (faces: seq<NativeFace>)
    requires WellFormed(bitmap)
    modifies env
    ensures env.thrown == old(env.thrown) + ConversionErrors(bitmap)
    ensures env.lockedPixels == old(env.lockedPixels)
    ensures |faces| == |rects|
    ensures forall j :: 0 <= j < |rects| ==>
              faces[j].bound == Truncated(rects[j]) && faces[j].landmarks == predict(Truncated(rects[j]))
  {
    var img := new Array2d();
    ConvertBitmapToArray2d(env, bitmap, img);

    var bounds: seq<DRect> := [];
    for i := 0 to |rects|
      invariant |bounds| == i
      invariant forall k :: 0 <= k < i ==> bounds[k] == Truncated(rects[k])
    {
      bounds := bounds + [Truncated(rects[i])];
    }
    faces := FacesOf(bounds, predict);
  }
}
