/** The size selection and the capture-session bookkeeping of the third
    faces-and-landmarks sample activity. */
module FacesAndLandmarksActivity {
  import opened JavaInt
  import opened Sizes
  import opened Wrappers
  import opened Camera2

  /** Largest video width the activity accepts (1080p). */
  const MAX_VIDEO_WIDTH: int := 1080

  /** `size.getWidth() == size.getHeight() * 4 / 3 && size.getWidth() <= 1080`,
      with Java's truncating division. */
  predicate IsVideoSize(size: Size)
  {
    size.width == Quot(size.height * 4, 3) && size.width <= MAX_VIDEO_WIDTH
  }

  /** `chooseVideoSize`: the first 4:3 size no wider than 1080, else the last
      choice (an empty array makes the source index out of bounds). */
  method ChooseVideoSize(choices: seq<Size>) returns (r: Size)
    requires |choices| > 0
    ensures r in choices
    ensures (exists i :: 0 <= i < |choices| && IsVideoSize(choices[i])) ==>
              exists i :: 0 <= i < |choices| && choices[i] == r && IsVideoSize(r) &&
                forall j :: 0 <= j < i ==> !IsVideoSize(choices[j])
    ensures (forall i :: 0 <= i < |choices| ==> !IsVideoSize(choices[i])) ==>
              r == choices[|choices| - 1]
  {
    for i := 0 to |choices|
      invariant forall j :: 0 <= j < i ==> !IsVideoSize(choices[j])
    {
      if IsVideoSize(choices[i]) {
        return choices[i];
      }
    }
    return choices[|choices| - 1];
  }

  /** The filter of the aspect-ratio `chooseOptimalSize`, for an aspect
      size `w` x `h` (`height == width * h / w`, truncating) and the view's
      `width` x `height`. */
  predicate Fits(option: Size, width: int, height: int, aspect: Size)
    requires aspect.width != 0
  {
    && option.height == Quot(option.width * aspect.height, aspect.width)
    && option.width >= width
    && option.height >= height
  }

  /** The `bigEnough` list: the fitting options, in order. */
  function FittingOf(choices: seq<Size>, width: int, height: int, aspect: Size): (r: seq<Size>)
    requires aspect.width != 0
    ensures |r| <= |choices|
    ensures forall x :: x in r <==> x in choices && Fits(x, width, height, aspect)
  {
    if choices == [] then []
    else
      var front := FittingOf(choices[..|choices| - 1], width, height, aspect);
      var last := choices[|choices| - 1];
      assert forall x :: x in choices <==> x in choices[..|choices| - 1] || x == last;
      if Fits(last, width, height, aspect) then front + [last] else front
  }

  /** `chooseOptimalSize(choices, width, height, aspectRatio)`: the fitting
      option of least area, else `choices[0]`. A zero aspect width makes
      Java's division throw, and an empty array an out-of-bounds index. */
  method ChooseOptimalSize(choices: seq<Size>, width: int, height: int, aspectRatio: Size)
    returns (r: Size)
    requires |choices| > 0 && aspectRatio.width != 0
    requires AllJavaSizes(choices)
    ensures r in choices
    ensures (exists c :: c in choices && Fits(c, width, height, aspectRatio)) ==>
              Fits(r, width, height, aspectRatio) &&
              forall c :: c in choices && Fits(c, width, height, aspectRatio) ==> Area(r) <= Area(c)
    ensures (forall c :: c in choices ==> !Fits(c, width, height, aspectRatio)) ==>
              r == choices[0]
  {
    var bigEnough: seq<Size> := [];
    for i := 0 to |choices|
      invariant bigEnough == FittingOf(choices[..i], width, height, aspectRatio)
    {
      var option := choices[i];
      assert choices[..i + 1] == choices[..i] + [option];
      assert choices[..i + 1][..i] == choices[..i];
      if Fits(option, width, height, aspectRatio) {
        bigEnough := bigEnough + [option];
      }
    }
    assert choices[..|choices|] == choices;

    if |bigEnough| > 0 {
      assert forall i :: 0 <= i < |bigEnough| ==> bigEnough[i] in choices;
      r := MinByArea(bigEnough);
    } else {
      r := choices[0];
    }
  }

  /** The activity's own camera state: the open device, whether the texture
      view is available, the chosen preview size and the current capture
      session. `closed` logs every `close()` the activity issues and
      `sessionRequests` the devices asked to create a session. */
  class CameraHost {
    var cameraDevice: Option<Device>
    var viewAvailable: bool
    var previewSize: Option<Size>
    var captureSession: Option<Session>
    ghost var closed: seq<Handle>
    ghost var sessionRequests: seq<Device>

    constructor ()
      ensures cameraDevice == None && !viewAvailable && previewSize == None
      ensures captureSession == None && closed == [] && sessionRequests == []
    {
      cameraDevice := None;
      viewAvailable := false;
      previewSize := None;
      captureSession := None;
      closed := [];
      sessionRequests := [];
    }

    /** `closeCaptureSession()`: closes the held session, if any, and forgets it. */
    method CloseCaptureSession()
      modifies this
      ensures captureSession == None
      ensures closed == old(if captureSession.Some? then closed + [SessionHandle(captureSession.value)] else closed)
      ensures cameraDevice == old(cameraDevice) && viewAvailable == old(viewAvailable)
      ensures previewSize == old(previewSize) && sessionRequests == old(sessionRequests)
    {
      if captureSession.Some? {
        closed := closed + [SessionHandle(captureSession.value)];
        captureSession := None;
      }
    }

    /** The guard of `createCaptureSession()`: with no device, no available
        view or no preview size nothing happens; otherwise the previous
        session is closed before a new one is requested from the device. */
    method CreateCaptureSession() returns (started: bool)
      modifies this
      ensures started <==> old(cameraDevice.Some? && viewAvailable && previewSize.Some?)
      ensures !started ==> closed == old(closed) && captureSession == old(captureSession) &&
                           sessionRequests == old(sessionRequests)
      ensures started ==> captureSession == None &&
                          closed == old(if captureSession.Some? then closed + [SessionHandle(captureSession.value)] else closed) &&
                          sessionRequests == old(sessionRequests) + [old(cameraDevice.value)]
      ensures cameraDevice == old(cameraDevice) && viewAvailable == old(viewAvailable)
      ensures previewSize == old(previewSize)
    {
      if cameraDevice.None? || !viewAvailable || previewSize.None? {
        return false;
      }
      CloseCaptureSession();
      sessionRequests := sessionRequests + [cameraDevice.value];
      return true;
    }
  }

  /** Closing twice closes the session once: the second call is a no-op. */
  method CloseTwice(host: CameraHost)
    modifies host
    ensures host.captureSession == None
    ensures host.closed == old(if host.captureSession.Some? then host.closed + [SessionHandle(host.captureSession.value)] else host.closed)
    ensures host.cameraDevice == old(host.cameraDevice) && host.viewAvailable == old(host.viewAvailable)
    ensures host.previewSize == old(host.previewSize) && host.sessionRequests == old(host.sessionRequests)
  {
    host.CloseCaptureSession();
    host.CloseCaptureSession();
  }
}
